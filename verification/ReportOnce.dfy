/**
 How often the start (completion) of a control is reported, by its insertion and by the wait tasks together,
 when the wait task may broadcast between any two steps of the loop. It is at most once, unless the loop
 replaces a wait task by one that predicts the same time after the first has already reported the control:
 then it is twice, and never more.
 */
module ReportOnce {
  import opened Wrappers
  import opened ResourceTypes
  import opened ModelUpdates
  import opened ControlHistory
  import opened Schedule
  import opened SchedulerTask
  import opened SchedulerSafety

  /** What the wait task has broadcast, and what it still will if it is not replaced. */
  function Broadcast(t: Option<WaitTask>): seq<Event> {
    if t.Some? && t.value.sent <= |t.value.next.events| then t.value.next.events[..t.value.sent] else []
  }

  function Remaining(t: Option<WaitTask>): seq<Event> {
    if t.Some? && t.value.sent <= |t.value.next.events| then t.value.next.events[t.value.sent..] else []
  }

  /** Everything broadcast once the wait task has finished. */
  function Completed(w: World): seq<Event> {
    w.log + Remaining(w.state.timer)
  }

  /** The second report is made or armed. */
  ghost predicate Twice(w: World, id: Mrid, status: ResponseStatus) {
    CountResponses(Completed(w), id, status) == 2
  }

  lemma CompletedCount(w: World, id: Mrid, status: ResponseStatus)
    ensures CountResponses(Completed(w), id, status)
         == CountResponses(w.log, id, status) + CountResponses(Remaining(w.state.timer), id, status)
  {
    CountConcat(w.log, Remaining(w.state.timer), id, status);
  }

  lemma SplitCount(t: WaitTask, id: Mrid, status: ResponseStatus)
    requires t.sent <= |t.next.events|
    ensures CountResponses(Broadcast(Some(t)), id, status) + CountResponses(Remaining(Some(t)), id, status)
         == CountResponses(t.next.events, id, status)
  {
    assert t.next.events == t.next.events[..t.sent] + t.next.events[t.sent..];
    CountConcat(t.next.events[..t.sent], t.next.events[t.sent..], id, status);
  }

  /** A prediction reports the control at most once, and at its time. */
  ghost predicate Predicts(m: ModelState, next: Prediction, id: Mrid, status: ResponseStatus) {
    var k := CountResponses(next.events, id, status);
    k <= 1 && (k == 1 ==> id in m.controls && next.time == Some(TimeOf(m.controls[id], status)))
  }

  /** Reported not before its time, by the wait task at least what that has broadcast; armed for its time only. */
  ghost predicate Tally(m: ModelState, clock: Seconds, log: seq<Event>, timer: Option<WaitTask>, id: Mrid,
                        status: ResponseStatus) {
    var n := CountResponses(log, id, status);
    && (n >= 1 ==> id in m.controls && TimeOf(m.controls[id], status) <= clock)
    && CountResponses(Broadcast(timer), id, status) <= n
    && (timer.Some? ==> Predicts(m, timer.value.next, id, status))
    && n + CountResponses(Remaining(timer), id, status) <= 2
  }

  /** Also, if the control is about to be armed then the wait task about to be replaced made the only report so far. */
  ghost predicate Reports(w: World, lfdi: Lfdi, id: Mrid, status: ResponseStatus) {
    && KeysMatch(w.state.model) && TimerIsLatest(w, lfdi)
    && Tally(w.state.model, w.clock, w.log, w.state.timer, id, status)
    && (w.phase.AfterPlan? ==>
          && Predicts(w.state.model, w.phase.next, id, status)
          && (CountResponses(w.phase.next.events, id, status) == 1
              ==> CountResponses(w.log, id, status) == CountResponses(Broadcast(w.state.timer), id, status)))
  }

  /** The loop is about to arm a report that the wait task it replaces has already made. */
  ghost predicate RearmsLate(w: World, id: Mrid, status: ResponseStatus) {
    && w.phase.AfterPlan? && w.phase.next != w.state.priorNext
    && CountResponses(w.phase.next.events, id, status) == 1
    && CountResponses(w.log, id, status) == 1
  }

  // Step by step.

  /** Merging may add one report, of the start of a control that was not there before. */
  lemma MergeTally(before: ModelState, after: ModelState, clock: Seconds, now: Seconds, log: seq<Event>,
                   more: seq<Event>, timer: Option<WaitTask>, id: Mrid, status: ResponseStatus)
    requires clock <= now && Tally(before, clock, log, timer, id, status)
    requires timer.Some? ==> timer.value.sent <= |timer.value.next.events|
    requires CountResponses(more, id, status) <= 1
    requires CountResponses(more, id, status) == 1
             ==> id !in before.controls && id in after.controls && TimeOf(after.controls[id], status) <= now
    requires id in before.controls ==> id in after.controls && SameInterval(after.controls[id], before.controls[id])
    ensures Tally(after, now, log + more, timer, id, status)
    ensures var rest := CountResponses(Remaining(timer), id, status);
            CountResponses(log, id, status) + rest <= 1 ==> CountResponses(log + more, id, status) + rest <= 1
  {
    CountConcat(log, more, id, status);
    if timer.Some? { SplitCount(timer.value, id, status); }
  }

  lemma MergeReportsOnce(w: World, lfdi: Lfdi, command: Command, env: Env, id: Mrid, status: ResponseStatus)
    requires status == EventStarted || status == EventCompleted
    requires CanAct(w, MergeCommand(command, env)) && Reports(w, lfdi, id, status)
    requires Resides(w.state.model, command, CommandModel(w.state.model, command, env), id)
    ensures var after := Act(w, lfdi, MergeCommand(command, env));
            && Reports(after, lfdi, id, status)
            && (CountResponses(Completed(w), id, status) <= 1 ==> CountResponses(Completed(after), id, status) <= 1)
  {
    var m, after := w.state.model, Act(w, lfdi, MergeCommand(command, env));
    TimerStaysLatest(w, lfdi, MergeCommand(command, env));
    if command.ResourceUpdated? { AppliedKeysMatch(m, command.update, env); }
    CommandReports(m, command, env, id);
    MergeTally(m, CommandModel(m, command, env), w.clock, env.now, w.log, CommandEvents(m, command, env),
               w.state.timer, id, status);
    CompletedCount(w, id, status);
    CompletedCount(after, id, status);
  }

  lemma PlanReportsOnce(w: World, lfdi: Lfdi, now: Seconds, id: Mrid, status: ResponseStatus)
    requires status == EventStarted || status == EventCompleted
    requires CanAct(w, PlanAt(now)) && Reports(w, lfdi, id, status) && ListedOnce(w.state.model, lfdi, id)
    ensures var after := Act(w, lfdi, PlanAt(now));
            Reports(after, lfdi, id, status)
            && CountResponses(Completed(after), id, status) == CountResponses(Completed(w), id, status)
  {
    var after := Act(w, lfdi, PlanAt(now));
    TimerStaysLatest(w, lfdi, PlanAt(now));
    AnnouncementsReportNothing(w.state, lfdi, now, id, status);
    CountConcat(w.log, Announcements(w.state, lfdi, now), id, status);
    PredictedOnce(w.state.model, lfdi, now, id, status);
    CompletedCount(w, id, status);
    CompletedCount(after, id, status);
  }

  /** Re-arming brings the count to two exactly when it comes late, provided it was not two before. */
  lemma RearmReportsOnce(w: World, lfdi: Lfdi, id: Mrid, status: ResponseStatus)
    requires CanAct(w, RearmTimer) && Reports(w, lfdi, id, status)
    ensures var after := Act(w, lfdi, RearmTimer);
            && Reports(after, lfdi, id, status)
            && (RearmsLate(w, id, status) ==> Twice(after, id, status))
            && (CountResponses(Completed(w), id, status) <= 1 && !RearmsLate(w, id, status)
                ==> CountResponses(Completed(after), id, status) <= 1)
  {
    var after := Act(w, lfdi, RearmTimer);
    TimerStaysLatest(w, lfdi, RearmTimer);
    CompletedCount(w, id, status);
    CompletedCount(after, id, status);
    if w.state.timer.Some? { SplitCount(w.state.timer.value, id, status); }
    if after.state.timer.Some? { SplitCount(after.state.timer.value, id, status); }
  }

  /** One event moves from what the wait task still has to what it has broadcast. */
  lemma OneMoreSent(t: WaitTask)
    requires t.sent < |t.next.events|
    ensures var event, t' := t.next.events[t.sent], t.(sent := t.sent + 1);
            && Remaining(Some(t)) == [event] + Remaining(Some(t'))
            && Broadcast(Some(t')) == Broadcast(Some(t)) + [event]
  {
  }

  lemma OneMoreCount(t: WaitTask, log: seq<Event>, id: Mrid, status: ResponseStatus)
    requires t.sent < |t.next.events|
    ensures var event, t' := t.next.events[t.sent], t.(sent := t.sent + 1);
            var n := CountResponses([event], id, status);
            && CountResponses(log + [event], id, status) == CountResponses(log, id, status) + n
            && CountResponses(Broadcast(Some(t')), id, status) == CountResponses(Broadcast(Some(t)), id, status) + n
            && CountResponses(Remaining(Some(t')), id, status) == CountResponses(Remaining(Some(t)), id, status) - n
            && n <= CountResponses(t.next.events, id, status)
  {
    var event, t' := t.next.events[t.sent], t.(sent := t.sent + 1);
    OneMoreSent(t);
    CountConcat(log, [event], id, status);
    CountConcat([event], Remaining(Some(t')), id, status);
    CountConcat(Broadcast(Some(t)), [event], id, status);
    SplitCount(t', id, status);
  }

  lemma EmitTally(m: ModelState, clock: Seconds, now: Seconds, log: seq<Event>, t: WaitTask, id: Mrid,
                  status: ResponseStatus)
    requires t.sent < |t.next.events| && t.next.time.Some? && t.next.time.value <= now && clock <= now
    requires Tally(m, clock, log, Some(t), id, status)
    ensures var event, t' := t.next.events[t.sent], t.(sent := t.sent + 1);
            Tally(m, now, log + [event], Some(t'), id, status)
  {
    OneMoreCount(t, log, id, status);
  }

  lemma EmitKeepsCompleted(w: World, lfdi: Lfdi, now: Seconds)
    requires CanAct(w, Emit(now))
    ensures Completed(Act(w, lfdi, Emit(now))) == Completed(w)
  {
    var t, after := w.state.timer.value, Act(w, lfdi, Emit(now));
    OneMoreSent(t);
    var event, rest := t.next.events[t.sent], Remaining(after.state.timer);
    assert after.log == w.log + [event];
    assert (w.log + [event]) + rest == w.log + ([event] + rest);
  }

  lemma EmitReportsOnce(w: World, lfdi: Lfdi, now: Seconds, id: Mrid, status: ResponseStatus)
    requires CanAct(w, Emit(now)) && Reports(w, lfdi, id, status)
    ensures var after := Act(w, lfdi, Emit(now));
            Reports(after, lfdi, id, status) && Completed(after) == Completed(w)
  {
    var t := w.state.timer.value;
    TimerStaysLatest(w, lfdi, Emit(now));
    EmitTally(w.state.model, w.clock, now, w.log, t, id, status);
    OneMoreCount(t, w.log, id, status);
    EmitKeepsCompleted(w, lfdi, now);
  }

  ghost predicate ComesLate(w: World, action: Action, id: Mrid, status: ResponseStatus) {
    action.RearmTimer? && RearmsLate(w, id, status)
  }

  /** The control stays where this step is a merge, and is on one path where it is a planning. */
  ghost predicate StepResides(w: World, lfdi: Lfdi, action: Action, id: Mrid) {
    match action
    case MergeCommand(command, env) =>
      Resides(w.state.model, command, CommandModel(w.state.model, command, env), id)
    case PlanAt(_) => ListedOnce(w.state.model, lfdi, id)
    case _ => true
  }

  lemma StepReportsOnce(w: World, lfdi: Lfdi, action: Action, id: Mrid, status: ResponseStatus)
    requires status == EventStarted || status == EventCompleted
    requires CanAct(w, action) && Reports(w, lfdi, id, status) && StepResides(w, lfdi, action, id)
    ensures var after := Act(w, lfdi, action);
            && Reports(after, lfdi, id, status)
            && (ComesLate(w, action, id, status) ==> Twice(after, id, status))
            && (CountResponses(Completed(w), id, status) <= 1 && !ComesLate(w, action, id, status)
                ==> CountResponses(Completed(after), id, status) <= 1)
  {
    match action
    case MergeCommand(command, env) => MergeReportsOnce(w, lfdi, command, env, id, status);
    case PlanAt(now) => PlanReportsOnce(w, lfdi, now, id, status);
    case RearmTimer => RearmReportsOnce(w, lfdi, id, status);
    case Emit(now) => EmitReportsOnce(w, lfdi, now, id, status);
  }

  // Whole runs.

  /** The control resides in the model over the whole run, and one path leads to it whenever the loop plans. */
  ghost predicate RunResides(worlds: seq<World>, lfdi: Lfdi, actions: seq<Action>, id: Mrid)
    requires |worlds| == |actions| + 1
  {
    forall i :: 0 <= i < |actions| ==> StepResides(worlds[i], lfdi, actions[i], id)
  }

  /** Some step before this one came late. */
  ghost predicate CameLate(worlds: seq<World>, actions: seq<Action>, id: Mrid, status: ResponseStatus, i: nat)
    requires i <= |actions| <= |worlds|
  {
    exists j :: 0 <= j < i && ComesLate(worlds[j], actions[j], id, status)
  }

  lemma {:induction false} RunReports(worlds: seq<World>, lfdi: Lfdi, actions: seq<Action>, id: Mrid,
                                      status: ResponseStatus, i: nat)
    requires status == EventStarted || status == EventCompleted
    requires IsRun(worlds, lfdi, actions) && RunResides(worlds, lfdi, actions, id) && i < |worlds|
    requires Reports(worlds[0], lfdi, id, status) && CountResponses(Completed(worlds[0]), id, status) <= 1
    ensures Reports(worlds[i], lfdi, id, status)
    ensures CountResponses(Completed(worlds[i]), id, status) >= 2 ==> CameLate(worlds, actions, id, status, i)
    ensures i > 0 && ComesLate(worlds[i - 1], actions[i - 1], id, status)
            ==> Twice(worlds[i], id, status)
  {
    if i > 0 {
      RunReports(worlds, lfdi, actions, id, status, i - 1);
      assert StepResides(worlds[i - 1], lfdi, actions[i - 1], id);
      StepReportsOnce(worlds[i - 1], lfdi, actions[i - 1], id, status);
    }
  }

  /**
   In every run, while a control stays in the model and one path leads to it, its start is reported at most
   twice, and at most once if no re-arming so far came late; and so is its completion.
   */
  lemma StartAndCompletionAtMostOnce(worlds: seq<World>, lfdi: Lfdi, actions: seq<Action>, id: Mrid,
                                     status: ResponseStatus, i: nat)
    requires status == EventStarted || status == EventCompleted
    requires IsRun(worlds, lfdi, actions) && RunResides(worlds, lfdi, actions, id) && i < |worlds|
    requires Reports(worlds[0], lfdi, id, status) && CountResponses(Completed(worlds[0]), id, status) <= 1
    ensures CountResponses(worlds[i].log, id, status) <= 2
    ensures !CameLate(worlds, actions, id, status, i) ==> CountResponses(worlds[i].log, id, status) <= 1
  {
    RunReports(worlds, lfdi, actions, id, status, i);
    CompletedCount(worlds[i], id, status);
  }

  /** A second report comes up somewhere in the run exactly if some re-arming comes late. */
  lemma ReportedTwiceExactly(worlds: seq<World>, lfdi: Lfdi, actions: seq<Action>, id: Mrid, status: ResponseStatus)
    requires status == EventStarted || status == EventCompleted
    requires IsRun(worlds, lfdi, actions) && RunResides(worlds, lfdi, actions, id)
    requires Reports(worlds[0], lfdi, id, status) && CountResponses(Completed(worlds[0]), id, status) <= 1
    ensures (exists i :: 0 <= i < |worlds| && Twice(worlds[i], id, status))
       <==> CameLate(worlds, actions, id, status, |actions|)
  {
    if i :| 0 <= i < |worlds| && Twice(worlds[i], id, status) {
      RunReports(worlds, lfdi, actions, id, status, i);
      var j :| 0 <= j < i && ComesLate(worlds[j], actions[j], id, status);
    }
    if CameLate(worlds, actions, id, status, |actions|) {
      var j :| 0 <= j < |actions| && ComesLate(worlds[j], actions[j], id, status);
      RunReports(worlds, lfdi, actions, id, status, j + 1);
      assert Twice(worlds[j + 1], id, status);
    }
  }

  lemma FreshReports(w: World, lfdi: Lfdi, model: ModelState, id: Mrid, status: ResponseStatus)
    requires StartsFresh(w, model) && KeysMatch(model)
    ensures Reports(w, lfdi, id, status) && CountResponses(Completed(w), id, status) == 0
  {
    assert Completed(w) == [];
  }

  /** Both for a run from any restored model, whether or not it already stores the control. */
  lemma StartAndCompletionAfterRestart(
    worlds: seq<World>, lfdi: Lfdi, actions: seq<Action>, model: ModelState, id: Mrid, status: ResponseStatus)
    requires status == EventStarted || status == EventCompleted
    requires IsRun(worlds, lfdi, actions) && RunResides(worlds, lfdi, actions, id)
    requires StartsFresh(worlds[0], model) && KeysMatch(model)
    ensures var n, late := CountResponses(worlds[|actions|].log, id, status),
                           CameLate(worlds, actions, id, status, |actions|);
            n <= 2 && (!late ==> n <= 1)
    ensures (exists i :: 0 <= i < |worlds| && Twice(worlds[i], id, status))
       <==> CameLate(worlds, actions, id, status, |actions|)
  {
    FreshReports(worlds[0], lfdi, model, id, status);
    StartAndCompletionAtMostOnce(worlds, lfdi, actions, id, status, |actions|);
    ReportedTwiceExactly(worlds, lfdi, actions, id, status);
  }

  // What it takes to come late, whichever control is concerned.

  /** The wait task has begun to broadcast and is replaced by another for the same time. */
  ghost predicate RearmsSameTime(w: World) {
    && w.phase.AfterPlan? && w.phase.next != w.state.priorNext
    && w.phase.next.time == w.state.priorNext.time
    && w.state.timer.Some? && w.state.timer.value.sent > 0
  }

  /** It takes the predicted second to come after the loop has read the clock and before it replaces the wait task. */
  lemma LateMeansSameTime(w: World, lfdi: Lfdi, id: Mrid, status: ResponseStatus)
    requires Reports(w, lfdi, id, status) && RearmsLate(w, id, status)
    ensures RearmsSameTime(w)
    ensures w.handled.Some? && w.phase.next.time.Some?
            && w.handled.value < w.phase.next.time.value <= w.clock
  {
    var t := w.state.timer;
    assert CountResponses(Broadcast(t), id, status) == 1;
    SplitCount(t.value, id, status);
    NextIsFirstBoundary(w.state.model, lfdi, w.handled.value);
  }

  /** So a run that never does this reports every such start and completion at most once. */
  lemma AtMostOnceUnlessSameTime(
    worlds: seq<World>, lfdi: Lfdi, actions: seq<Action>, model: ModelState, id: Mrid, status: ResponseStatus)
    requires status == EventStarted || status == EventCompleted
    requires IsRun(worlds, lfdi, actions) && RunResides(worlds, lfdi, actions, id)
    requires StartsFresh(worlds[0], model) && KeysMatch(model)
    requires forall j :: 0 <= j < |actions| && actions[j].RearmTimer? ==> !RearmsSameTime(worlds[j])
    ensures CountResponses(worlds[|actions|].log, id, status) <= 1
  {
    FreshReports(worlds[0], lfdi, model, id, status);
    forall j | 0 <= j < |actions| ensures !ComesLate(worlds[j], actions[j], id, status) {
      RunReports(worlds, lfdi, actions, id, status, j);
      if ComesLate(worlds[j], actions[j], id, status) {
        LateMeansSameTime(worlds[j], lfdi, id, status);
      }
    }
    StartAndCompletionAfterRestart(worlds, lfdi, actions, model, id, status);
  }

  // A second report really is broadcast.

  lemma RunAfter(w: World, lfdi: Lfdi, action: Action, worlds: seq<World>, actions: seq<Action>)
    requires CanAct(w, action) && IsRun(worlds, lfdi, actions) && worlds[0] == Act(w, lfdi, action)
    ensures IsRun([w] + worlds, lfdi, [action] + actions)
  {
    var all, acts := [w] + worlds, [action] + actions;
    forall i | 0 <= i < |acts| ensures CanAct(all[i], acts[i]) && all[i + 1] == Act(all[i], lfdi, acts[i]) {
      if i > 0 {
        assert all[i] == worlds[i - 1] && all[i + 1] == worlds[i] && acts[i] == actions[i - 1];
      }
    }
  }

  /** A wait task whose time has come broadcasts everything it has left, if it is left alone. */
  lemma {:induction false} WaitTaskFinishes(w: World, lfdi: Lfdi) returns (worlds: seq<World>, actions: seq<Action>)
    requires w.state.timer.Some?
    requires var t := w.state.timer.value;
             t.sent <= |t.next.events| && t.next.time.Some? && t.next.time.value <= w.clock
    ensures IsRun(worlds, lfdi, actions) && worlds[0] == w && worlds[|actions|].log == Completed(w)
    ensures forall i :: 0 <= i < |actions| ==> actions[i] == Emit(w.clock)
    decreases |Remaining(w.state.timer)|
  {
    var t := w.state.timer.value;
    if t.sent == |t.next.events| {
      worlds, actions := [w], [];
    } else {
      var next := Act(w, lfdi, Emit(w.clock));
      var later, more := WaitTaskFinishes(next, lfdi);
      EmitKeepsCompleted(w, lfdi, w.clock);
      OneMoreSent(t);
      worlds, actions := [w] + later, [Emit(w.clock)] + more;
      RunAfter(w, lfdi, Emit(w.clock), later, more);
    }
  }

  /** After a re-arming that comes late the wait task need only be left alone for the second report to be made. */
  lemma LateRearmingReportsTwice(w: World, lfdi: Lfdi, id: Mrid, status: ResponseStatus)
    returns (worlds: seq<World>, actions: seq<Action>)
    requires Reports(w, lfdi, id, status) && RearmsLate(w, id, status)
    ensures IsRun(worlds, lfdi, actions) && worlds[0] == Act(w, lfdi, RearmTimer)
    ensures forall i :: 0 <= i < |actions| ==> actions[i].Emit?
    ensures CountResponses(worlds[|actions|].log, id, status) == 2
  {
    LateMeansSameTime(w, lfdi, id, status);
    RearmReportsOnce(w, lfdi, id, status);
    worlds, actions := WaitTaskFinishes(Act(w, lfdi, RearmTimer), lfdi);
  }
}
