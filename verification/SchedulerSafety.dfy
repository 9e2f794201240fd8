/**
 What holds in every run of the scheduler: the wait task holds the latest prediction, and the
 parameters broadcast last are never stale. Also what is needed to count reports of starts and completions.
 */
module SchedulerSafety {
  import opened Wrappers
  import opened ResourceTypes
  import opened ResourceGraph
  import opened LinkEvents
  import HrefOrder
  import SweepCorrectness
  import opened ModelUpdates
  import opened ModelRuns
  import opened ControlHistory
  import opened ControlPriority
  import opened ParameterLayering
  import opened Schedule
  import opened SchedulerTask

  // The armed timer.

  /** The prediction of the last planning: armed, or about to be. */
  function LatestNext(w: World): Prediction {
    if w.phase.AfterPlan? then w.phase.next else w.state.priorNext
  }

  /**
   The wait task holds the prediction that was armed last, and has broadcast nothing before its time. The latest
   prediction is that of the model at the last planning, except while an update is merged but not yet planned for.
   */
  ghost predicate TimerIsLatest(w: World, lfdi: Lfdi) {
    && (w.handled.Some? ==> w.handled.value <= w.clock)
    && (w.handled.Some? && !w.phase.AfterMerge? ==> LatestNext(w) == CalcNext(w.state.model, lfdi, w.handled.value))
    && (w.phase.AfterPlan? ==> w.handled.Some?)
    && (w.state.timer.None? ==> w.state.priorNext == Prediction(None, []))
    && (w.state.timer.Some? ==>
          var t := w.state.timer.value;
          && t.next == w.state.priorNext && OnlyResponses(t.next.events) && t.sent <= |t.next.events|
          && (t.sent > 0 ==> t.next.time.Some? && t.next.time.value <= w.clock))
    && (w.phase.AfterPlan? ==> OnlyResponses(w.phase.next.events))
  }

  lemma TimerStaysLatest(w: World, lfdi: Lfdi, action: Action)
    requires TimerIsLatest(w, lfdi) && CanAct(w, action)
    ensures TimerIsLatest(Act(w, lfdi, action), lfdi)
  {
    match action
    case MergeCommand(_, _) =>
    case PlanAt(now) => PredictionsAreResponses(w.state.model, lfdi, now);
    case RearmTimer =>
    case Emit(_) =>
  }

  // Parameters.

  function LastParameters(log: seq<Event>): ControlAttributes {
    if log == [] then NO_PARAMETERS
    else if log[|log| - 1].ParametersChanged? then log[|log| - 1].attributes
    else LastParameters(log[..|log| - 1])
  }

  ghost predicate NoParameters(events: seq<Event>) {
    forall i :: 0 <= i < |events| ==> !events[i].ParametersChanged?
  }

  /** What commands broadcast: neither parameters nor post rates. */
  ghost predicate NoAnnouncements(events: seq<Event>) {
    forall i :: 0 <= i < |events| ==> !events[i].ParametersChanged? && !events[i].PostRatesChanged?
  }

  lemma {:induction false} LastParametersConcat(a: seq<Event>, b: seq<Event>)
    requires NoParameters(b)
    ensures LastParameters(a + b) == LastParameters(a)
  {
    if b == [] {
      assert a + b == a;
    } else {
      assert (a + b)[..|a + b| - 1] == a + b[..|b| - 1];
      LastParametersConcat(a, b[..|b| - 1]);
    }
  }

  lemma NoneInEither(a: seq<Event>, b: seq<Event>)
    requires NoAnnouncements(a) && NoAnnouncements(b)
    ensures NoAnnouncements(a + b)
  {
  }

  lemma LinksAreNotAnnouncements(prior: ResourceLinks, post: ResourceLinks)
    ensures NoAnnouncements(LinkEventsBetween(prior, post))
  {
    var removed, changed := HrefOrder.InOrder(RemovedHrefs(prior, post)), HrefOrder.InOrder(ChangedHrefs(prior, post));
    RemovalsAreLinks(prior, removed);
    AdditionsAreLinks(post, changed);
    NoneInEither(Removals(prior, removed), Additions(post, changed));
  }

  lemma UpdatesAreNotAnnouncements(m: ModelState, update: Update, env: Env)
    ensures NoAnnouncements(UpdateEvents(m, update, env))
  {
    var prior, post := Links(m), Links(Merged(m, update, env));
    LinksAreNotAnnouncements(prior, post);
    UpdateControlEventsAreResponses(m, update, env);
    NoneInEither(LinkEventsBetween(prior, post), ControlEvents(m, update, env));
  }

  lemma CommandsAreNotAnnouncements(m: ModelState, command: Command, env: Env)
    ensures NoAnnouncements(CommandEvents(m, command, env))
  {
    match command
    case NextSchedule =>
    case ResourceUpdated(update) => UpdatesAreNotAnnouncements(m, update, env);
    case RefreshActiveResources =>
      LinksAreNotAnnouncements(map[], Links(m));
  }

  lemma {:induction false} ResponsesAtAreResponses(controls: seq<ControlRef>, now: Seconds, time: Seconds)
    ensures OnlyResponses(ResponsesAt(FutureBoundaries(controls, now), time))
  {
    if controls != [] {
      ResponsesAtAreResponses(controls[1..], now, time);
      OwnResponses(controls[0], now, time);
      ResponsesAtConcat(After(BoundariesOf(controls[0]), now), FutureBoundaries(controls[1..], now), time);
    }
  }

  lemma {:induction false} ResponsesAtConcat(a: seq<Boundary>, b: seq<Boundary>, time: Seconds)
    ensures ResponsesAt(a + b, time) == ResponsesAt(a, time) + ResponsesAt(b, time)
  {
    if a == [] {
      assert a + b == b;
    } else {
      assert (a + b)[1..] == a[1..] + b;
      ResponsesAtConcat(a[1..], b, time);
    }
  }

  /** What one control contributes to the responses of a time after now: its start, then its completion. */
  function OwnResponsesAt(control: ControlRef, time: Seconds): seq<Event> {
    match control
    case DefaultRef(_) => []
    case ScheduledRef(s) =>
      if !s.control.AsksToReport() then [] else
      (if s.startTime == time then [Report(s.control, EventStarted)] else [])
      + (if s.startTime + s.duration == time then [Report(s.control, EventCompleted)] else [])
  }

  function ResponsesInTurn(controls: seq<ControlRef>, time: Seconds): seq<Event> {
    if controls == [] then [] else OwnResponsesAt(controls[0], time) + ResponsesInTurn(controls[1..], time)
  }

  lemma OwnResponses(control: ControlRef, now: Seconds, time: Seconds)
    ensures var r := ResponsesAt(After(BoundariesOf(control), now), time);
            r == (if time > now then OwnResponsesAt(control, time) else [])
    ensures OnlyResponses(ResponsesAt(After(BoundariesOf(control), now), time))
  {
    if control.ScheduledRef? {
      var b := BoundariesOf(control);
      assert b == [b[0]] + [b[1]];
      OneBoundary(b[0], now, time);
      OneBoundary(b[1], now, time);
      AfterConcat([b[0]], [b[1]], now);
      ResponsesAtConcat(After([b[0]], now), After([b[1]], now), time);
    }
  }

  lemma OneBoundary(b: Boundary, now: Seconds, time: Seconds)
    ensures ResponsesAt(After([b], now), time) == if b.time > now && b.time == time then b.response else []
  {
    assert [b][1..] == [];
    assert After([], now) == [];
    assert After([b], now) == if b.time > now then [b] else [];
    assert ResponsesAt([], time) == [];
    assert b.response + [] == b.response;
  }

  lemma {:induction false} InTurn(controls: seq<ControlRef>, now: Seconds, time: Seconds)
    requires time > now
    ensures ResponsesAt(FutureBoundaries(controls, now), time) == ResponsesInTurn(controls, time)
  {
    if controls != [] {
      InTurn(controls[1..], now, time);
      OwnResponses(controls[0], now, time);
      ResponsesAtConcat(After(BoundariesOf(controls[0]), now), FutureBoundaries(controls[1..], now), time);
    }
  }

  /** A prediction brings the responses of its second control by control, in order of priority. */
  lemma PredictedInTurn(m: ModelState, lfdi: Lfdi, now: Seconds)
    ensures var next := CalcNext(m, lfdi, now);
            next.events == if next.time.Some? then ResponsesInTurn(AllControls(m, lfdi, now), next.time.value) else []
  {
    var next := CalcNext(m, lfdi, now);
    if next.time.Some? {
      NextIsFirstBoundary(m, lfdi, now);
      InTurn(AllControls(m, lfdi, now), now, next.time.value);
    }
  }

  lemma PredictionsAreResponses(m: ModelState, lfdi: Lfdi, now: Seconds)
    ensures OnlyResponses(CalcNext(m, lfdi, now).events)
  {
    var next := CalcNext(m, lfdi, now);
    if next.time.Some? {
      ResponsesAtAreResponses(AllControls(m, lfdi, now), now, next.time.value);
    }
  }

  /** The last parameters broadcast are those of the last planning. */
  ghost predicate ParametersAreLatest(w: World, lfdi: Lfdi) {
    && LastParameters(w.log) == w.state.priorParameters
    && (w.handled.Some? && !w.phase.AfterMerge? ==>
          w.state.priorParameters == CalcParameters(w.state.model, lfdi, w.handled.value))
  }

  lemma LastOfAnnounced(log: seq<Event>, rates: seq<Event>, prior: ControlAttributes, latest: ControlAttributes)
    requires NoParameters(rates) && LastParameters(log) == prior
    ensures LastParameters(log + (rates + (if latest != prior then [ParametersChanged(latest)] else []))) == latest
  {
    var tail := if latest != prior then [ParametersChanged(latest)] else [];
    LastParametersConcat(log, rates);
    assert log + (rates + tail) == log + rates + tail;
    if tail != [] {
      assert (log + rates + tail)[|log + rates + tail| - 1] == ParametersChanged(latest);
    } else {
      assert log + rates + tail == log + rates;
    }
  }

  lemma AnnouncingKeepsParameters(log: seq<Event>, s: LoopState, lfdi: Lfdi, now: Seconds)
    requires LastParameters(log) == s.priorParameters
    ensures LastParameters(log + Announcements(s, lfdi, now)) == CalcParameters(s.model, lfdi, now)
  {
    var postRates := CurrentPostRates(s.model, lfdi);
    LastOfAnnounced(log, if postRates != s.priorPostRates then [PostRatesChanged(postRates)] else [],
                    s.priorParameters, CalcParameters(s.model, lfdi, now));
  }

  lemma ParametersStayLatest(w: World, lfdi: Lfdi, action: Action)
    requires TimerIsLatest(w, lfdi) && ParametersAreLatest(w, lfdi) && CanAct(w, action)
    ensures ParametersAreLatest(Act(w, lfdi, action), lfdi)
  {
    match action
    case MergeCommand(command, env) =>
      CommandsAreNotAnnouncements(w.state.model, command, env);
      LastParametersConcat(w.log, CommandEvents(w.state.model, command, env));
    case PlanAt(now) => AnnouncingKeepsParameters(w.log, w.state, lfdi, now);
    case RearmTimer =>
    case Emit(_) => LastParametersConcat(w.log, [w.state.timer.value.next.events[w.state.timer.value.sent]]);
  }

  lemma {:induction false} RunKeepsLatest(worlds: seq<World>, lfdi: Lfdi, actions: seq<Action>, i: nat)
    requires IsRun(worlds, lfdi, actions) && i < |worlds|
    requires TimerIsLatest(worlds[0], lfdi) && ParametersAreLatest(worlds[0], lfdi)
    ensures TimerIsLatest(worlds[i], lfdi) && ParametersAreLatest(worlds[i], lfdi)
  {
    if i > 0 {
      RunKeepsLatest(worlds, lfdi, actions, i - 1);
      TimerStaysLatest(worlds[i - 1], lfdi, actions[i - 1]);
      ParametersStayLatest(worlds[i - 1], lfdi, actions[i - 1]);
    }
  }

  /** A run of the scheduler from a restored model. */
  ghost predicate StartsFresh(w: World, model: ModelState) {
    w.state == Initial(model) && w.phase.Idle? && w.handled.None? && w.log == []
  }

  /**
   In every run, whenever no merged update is still to be planned for: the latest prediction is that of the last
   planning, and from that second until just before the predicted one (or for ever if there is none) the
   parameters broadcast last are the parameters of the current second. Once the loop is idle, a wait task that
   has broadcast nothing is armed with the prediction until its time comes.
   */
  lemma ParametersNeverStale(worlds: seq<World>, lfdi: Lfdi, actions: seq<Action>, model: ModelState, t: Seconds)
    requires IsRun(worlds, lfdi, actions) && StartsFresh(worlds[0], model)
    ensures var w := worlds[|actions|];
            w.handled.Some? && !w.phase.AfterMerge? ==>
              && LatestNext(w) == CalcNext(w.state.model, lfdi, w.handled.value)
              && (BeforeNext(LatestNext(w).time, w.handled.value, t)
                  ==> LastParameters(w.log) == CalcParameters(w.state.model, lfdi, t))
              && (w.phase.Idle? && LatestNext(w).time.Some? && w.clock < LatestNext(w).time.value
                  ==> w.state.timer == Some(WaitTask(LatestNext(w), 0)))
  {
    var w := worlds[|actions|];
    RunKeepsLatest(worlds, lfdi, actions, |actions|);
    if w.handled.Some? && !w.phase.AfterMerge? && BeforeNext(LatestNext(w).time, w.handled.value, t) {
      ParametersHoldUntilNext(w.state.model, lfdi, w.handled.value, t);
    }
  }

  // Reporting starts and completions.

  /** Controls are stored under their own MRID. */
  ghost predicate KeysMatch(m: ModelState) {
    UnderOwnMrid(m.controls)
  }

  ghost predicate UnderOwnMrid(controls: map<Mrid, ScheduledControl>) {
    forall k :: k in controls ==> controls[k].control.mrid == k
  }

  lemma {:induction false} SetControlsKeysMatch(controls: map<Mrid, ScheduledControl>, incoming: seq<ControlResource>,
                                                env: Env)
    requires UnderOwnMrid(controls)
    ensures UnderOwnMrid(SetControls(controls, incoming, env).0)
  {
    if incoming != [] {
      var n := |incoming| - 1;
      SetControlsKeysMatch(controls, incoming[..n], env);
      var before := SetControls(controls, incoming[..n], env).0;
      assert SetControls(controls, incoming, env).0 == SetControl(before, incoming[n], env.draw(n), env.now).0;
    }
  }

  lemma MergedKeysMatch(m: ModelState, update: Update, env: Env)
    requires KeysMatch(m)
    ensures KeysMatch(Merged(m, update, env))
  {
    if update.ControlListUpdate? && update.controls.href.Some? {
      SetControlsKeysMatch(m.controls, update.controls.items, env);
      assert Merged(m, update, env).controls == SetControls(m.controls, update.controls.items, env).0;
    } else {
      assert Merged(m, update, env).controls == m.controls;
    }
  }

  lemma AppliedKeysMatch(m: ModelState, update: Update, env: Env)
    requires KeysMatch(m)
    ensures KeysMatch(Applied(m, update, env))
  {
    MergedKeysMatch(m, update, env);
    SweptKeysMatch(Merged(m, update, env), Links(Merged(m, update, env)).Keys);
  }

  lemma SweptKeysMatch(m: ModelState, tracked: set<Href>)
    requires KeysMatch(m)
    ensures KeysMatch(Sweep(m, tracked))
  {
  }

  lemma {:induction false} CandidatesAreStored(m: ModelState, programs: seq<ProgramResource>, now: Seconds,
                                               a: Annotated)
    requires a in CandidatesOf(m, programs, now) && a.control.ScheduledRef?
    ensures exists k :: k in m.controls && m.controls[k] == a.control.scheduled
  {
    var program := programs[0];
    if a in ScheduledAhead(program.primacy, StoredControls(m, program), now) {
      AheadAreStored(program.primacy, StoredControls(m, program), now, a);
      var list := m.controlLists[program.controlListLink.value];
      SweepCorrectness.LookupContains(list.items, m.controls, a.control.scheduled);
    } else if a !in DefaultOf(m, program) {
      CandidatesAreStored(m, programs[1..], now, a);
    }
  }

  lemma {:induction false} AheadAreStored(primacy: nat, controls: seq<ScheduledControl>, now: Seconds, a: Annotated)
    requires a in ScheduledAhead(primacy, controls, now)
    ensures a.control.ScheduledRef? && a.control.scheduled in controls
  {
    if a != Annotated(primacy, ScheduledRef(controls[0])) {
      AheadAreStored(primacy, controls[1..], now, a);
    }
  }

  function CountListed(controls: seq<ControlRef>, id: Mrid): nat {
    if controls == [] then 0 else
    (if controls[0].ScheduledRef? && controls[0].scheduled.control.mrid == id then 1 else 0)
    + CountListed(controls[1..], id)
  }

  function TimeOf(s: ScheduledControl, status: ResponseStatus): Seconds {
    if status == EventStarted then s.startTime else s.EndTime()
  }

  /** Some listing of the control has its start (end) at this time. */
  ghost predicate ListedAt(controls: seq<ControlRef>, id: Mrid, status: ResponseStatus, time: Seconds) {
    exists c :: c in controls && c.ScheduledRef? && c.scheduled.control.mrid == id
                && TimeOf(c.scheduled, status) == time
  }

  lemma ListedAtEither(controls: seq<ControlRef>, id: Mrid, status: ResponseStatus, time: Seconds)
    requires controls != []
    requires ListedAt([controls[0]], id, status, time) || ListedAt(controls[1..], id, status, time)
    ensures ListedAt(controls, id, status, time)
  {
    assert controls == [controls[0]] + controls[1..];
    var c :| (c in [controls[0]] || c in controls[1..]) && c.ScheduledRef? && c.scheduled.control.mrid == id
             && TimeOf(c.scheduled, status) == time;
    assert c in controls;
  }

  /** At a predicted time a control is reported at most as often as it is listed, and only at its own start or end. */
  lemma {:induction false} ReportedAtOwnTime(controls: seq<ControlRef>, now: Seconds, time: Seconds, id: Mrid,
                                             status: ResponseStatus)
    requires status == EventStarted || status == EventCompleted
    ensures var n := CountResponses(ResponsesAt(FutureBoundaries(controls, now), time), id, status);
            n <= CountListed(controls, id) && (n > 0 ==> time > now && ListedAt(controls, id, status, time))
  {
    if controls != [] {
      ReportedAtOwnTime(controls[1..], now, time, id, status);
      OneReportedAtOwnTime(controls[0], now, time, id, status);
      var own, rest := After(BoundariesOf(controls[0]), now), FutureBoundaries(controls[1..], now);
      ResponsesAtConcat(own, rest, time);
      CountConcat(ResponsesAt(own, time), ResponsesAt(rest, time), id, status);
      if ListedAt([controls[0]], id, status, time) || ListedAt(controls[1..], id, status, time) {
        ListedAtEither(controls, id, status, time);
      }
    }
  }

  lemma OneReportedAtOwnTime(control: ControlRef, now: Seconds, time: Seconds, id: Mrid, status: ResponseStatus)
    requires status == EventStarted || status == EventCompleted
    ensures var n := CountResponses(ResponsesAt(After(BoundariesOf(control), now), time), id, status);
            && n <= (if control.ScheduledRef? && control.scheduled.control.mrid == id then 1 else 0)
            && (n > 0 ==> time > now && ListedAt([control], id, status, time))
  {
    OwnResponses(control, now, time);
    OwnCount(control, time, id, status);
    assert control in [control];
  }

  lemma OwnCount(control: ControlRef, time: Seconds, id: Mrid, status: ResponseStatus)
    requires status == EventStarted || status == EventCompleted
    ensures var n := CountResponses(OwnResponsesAt(control, time), id, status);
            && n <= 1
            && (n > 0 ==> control.ScheduledRef? && control.scheduled.control.mrid == id
                          && TimeOf(control.scheduled, status) == time)
  {
    if control.ScheduledRef? {
      var s := control.scheduled;
      var started := if s.startTime == time then ResponseIfRequired(s.control, true, EventStarted) else [];
      var completed := if s.EndTime() == time then ResponseIfRequired(s.control, true, EventCompleted) else [];
      CountConcat(started, completed, id, status);
    }
  }

  /** One program path leads to the control: it is listed at most once at any time. */
  ghost predicate ListedOnce(m: ModelState, lfdi: Lfdi, id: Mrid) {
    forall now :: CountListed(AllControls(m, lfdi, now), id) <= 1
  }

  lemma PredictedOnce(m: ModelState, lfdi: Lfdi, now: Seconds, id: Mrid, status: ResponseStatus)
    requires status == EventStarted || status == EventCompleted
    requires KeysMatch(m) && ListedOnce(m, lfdi, id)
    ensures var next := CalcNext(m, lfdi, now);
            var n := CountResponses(next.events, id, status);
            && n <= 1
            && (n == 1 ==> id in m.controls && next.time == Some(TimeOf(m.controls[id], status))
                           && next.time.value > now)
  {
    var next := CalcNext(m, lfdi, now);
    var controls := AllControls(m, lfdi, now);
    if next.time.Some? {
      ReportedAtOwnTime(controls, now, next.time.value, id, status);
      if CountResponses(next.events, id, status) > 0 {
        var c :| c in controls && c.ScheduledRef? && c.scheduled.control.mrid == id
                 && TimeOf(c.scheduled, status) == next.time.value;
        var i :| 0 <= i < |controls| && controls[i] == c;
        var s := Candidates(m, lfdi, now);
        SameMembers(s, Sort(s)[i]);
        CandidatesAreStored(m, ProgramsForDevice(m, lfdi), now, Sort(s)[i]);
      }
    }
  }

  /**
   Merging reports a start only for a control it inserts, once, and while the control is running; it
   never reports a completion.
   */
  lemma {:induction false} MergeReports(controls: map<Mrid, ScheduledControl>, incoming: seq<ControlResource>,
                                        env: Env, id: Mrid)
    ensures var (after, events) := SetControls(controls, incoming, env);
            var n := CountResponses(events, id, EventStarted);
            && CountResponses(events, id, EventCompleted) == 0
            && n <= 1
            && (n == 1 ==> id !in controls && id in after && after[id].startTime <= env.now)
            && (id in controls ==> id in after)
            && (id in after && id !in controls ==> Mentions(incoming, id) != [])
            && (Mentions(incoming, id) == [] ==> n == 0)
  {
    if incoming != [] {
      var n := |incoming| - 1;
      MergeReports(controls, incoming[..n], env, id);
      var (before, events) := SetControls(controls, incoming[..n], env);
      var (after, more) := SetControl(before, incoming[n], env.draw(n), env.now);
      assert SetControls(controls, incoming, env) == (after, events + more);
      CountConcat(events, more, id, EventStarted);
      CountConcat(events, more, id, EventCompleted);
      OneControlReports(before, incoming[n], env.draw(n), env.now, id);
    }
  }

  lemma OneControlReports(controls: map<Mrid, ScheduledControl>, incoming: ControlResource, draw: Draw, now: Seconds,
                          id: Mrid)
    ensures var (after, events) := SetControl(controls, incoming, draw, now);
            var n := CountResponses(events, id, EventStarted);
            && CountResponses(events, id, EventCompleted) == 0
            && n <= 1
            && (n == 1 ==> incoming.mrid == id && id !in controls && id in after && after[id].startTime <= now)
  {
    if incoming.mrid !in controls {
      var control := Realise(incoming, draw);
      var received := ResponseIfRequired(incoming, false, EventReceived);
      var started := if AlreadyStarted(control, now) then ResponseIfRequired(incoming, true, EventStarted) else [];
      CountConcat(received, started, id, EventStarted);
      CountConcat(received, started, id, EventCompleted);
    }
  }

  function MentionsInCommand(command: Command, id: Mrid): seq<ControlResource> {
    match command
    case ResourceUpdated(update) => MentionsIn(update, id)
    case _ => []
  }

  lemma UpdateReports(m: ModelState, update: Update, env: Env, id: Mrid)
    ensures var after, events := Merged(m, update, env).controls, UpdateEvents(m, update, env);
            var n := CountResponses(events, id, EventStarted);
            && CountResponses(events, id, EventCompleted) == 0
            && n <= 1
            && (n == 1 ==> id !in m.controls && id in after && after[id].startTime <= env.now
                           && MentionsIn(update, id) != [])
  {
    UpdateResponses(m, update, env, id, EventStarted);
    UpdateResponses(m, update, env, id, EventCompleted);
    ControlsReport(m, update, env, id);
  }

  lemma ControlsReport(m: ModelState, update: Update, env: Env, id: Mrid)
    ensures var after, events := Merged(m, update, env).controls, ControlEvents(m, update, env);
            var n := CountResponses(events, id, EventStarted);
            && CountResponses(events, id, EventCompleted) == 0
            && n <= 1
            && (n == 1 ==> id !in m.controls && id in after && after[id].startTime <= env.now
                           && MentionsIn(update, id) != [])
  {
    if update.ControlListUpdate? && update.controls.href.Some? {
      MergeReports(m.controls, update.controls.items, env, id);
      var (after, events) := SetControls(m.controls, update.controls.items, env);
      assert Merged(m, update, env).controls == after && ControlEvents(m, update, env) == events;
    } else {
      assert ControlEvents(m, update, env) == [];
    }
  }

  /** The control stays once it is in the model, and an update that mentions it leaves it in. */
  ghost predicate Resides(before: ModelState, command: Command, after: ModelState, id: Mrid) {
    && (id in before.controls ==> id in after.controls)
    && (MentionsInCommand(command, id) != [] ==> id in after.controls)
  }

  lemma CommandReports(m: ModelState, command: Command, env: Env, id: Mrid)
    requires Resides(m, command, CommandModel(m, command, env), id)
    ensures var after, events := CommandModel(m, command, env).controls, CommandEvents(m, command, env);
            var n := CountResponses(events, id, EventStarted);
            && CountResponses(events, id, EventCompleted) == 0
            && n <= 1
            && (n == 1 ==> id !in m.controls && id in after && after[id].startTime <= env.now)
            && (id in m.controls ==> id in after && SameInterval(after[id], m.controls[id]))
  {
    match command
    case NextSchedule =>
    case ResourceUpdated(update) =>
      UpdateReports(m, update, env, id);
      if id in m.controls {
        MergeKeepsInterval(m, update, env, id);
      }
    case RefreshActiveResources =>
      LinkEventsAreNotResponses(map[], Links(m));
      NoResponses(RefreshEvents(m), id, EventStarted);
      NoResponses(RefreshEvents(m), id, EventCompleted);
  }

  lemma AnnouncementsReportNothing(s: LoopState, lfdi: Lfdi, now: Seconds, id: Mrid, status: ResponseStatus)
    ensures CountResponses(Announcements(s, lfdi, now), id, status) == 0
  {
    NoResponses(Announcements(s, lfdi, now), id, status);
  }
}
