/** Inputs on which the scheduler reports the start of a control twice. */
module SchedulerCounterexamples {
  import opened Wrappers
  import opened ResourceTypes
  import opened ResourceGraph
  import opened ResourceLevels
  import opened Reachability
  import opened SweepCorrectness
  import opened ModelUpdates
  import opened ControlHistory
  import opened ControlPriority
  import opened ModelCounterexamples
  import opened Schedule
  import opened SchedulerTask
  import opened SchedulerSafety
  import opened ControlPaths
  import opened ReportOnce

  // Two paths to one control.

  const STORED := ScheduledControl(CONTROL, 100, 10)

  const TWICE_LISTED := TWO_PATHS.(controlLists := map["/derc" := IDList("/derc", [7], None)],
                        controls := map[7 := STORED])

  /** Two FSAs that link one program list: the start of its control is predicted, and so reported, twice. */
  lemma TwoPathsReportTwice()
    ensures Paths(TWICE_LISTED, 1, 7) == 2
    ensures CalcNext(TWICE_LISTED, 1, 0).time == Some(100)
            && CountResponses(CalcNext(TWICE_LISTED, 1, 0).events, 7, EventStarted) == 2
  {
    TwoProgramPaths();
    TwoCandidates();
    NextIsFirstBoundary(TWICE_LISTED, 1, 0);
    assert 100 in FutureTimes(TWICE_LISTED, 1, 0) by {
      assert Annotated(1, ScheduledRef(STORED)) in Candidates(TWICE_LISTED, 1, 0);
      assert 100 in BoundaryTimes(ScheduledRef(STORED));
    }
    EachPathReports(TWICE_LISTED, 1, 0, 7, EventStarted);
  }

  lemma TwoProgramPaths()
    ensures ProgramsForDevice(TWICE_LISTED, 1) == [TWICE_LISTED.programs[21], TWICE_LISTED.programs[21]]
    ensures Paths(TWICE_LISTED, 1, 7) == 2
  {
    var m := TWICE_LISTED;
    assert [11, 12][1..] == [12];
    var fsas := ListItems(Get(m.fsaLists, "/fsa"), m.fsas);
    assert fsas == [m.fsas[11], m.fsas[12]];
    assert fsas[1..] == [m.fsas[12]];
    assert ProgramsOf(m, fsas[1..]) == [m.programs[21]];
    var programs := ProgramsForDevice(m, 1);
    assert programs[1..] == [m.programs[21]];
    assert MentionsBelow(m, m.programs[21], 7) == 1;
  }

  lemma TwoCandidates()
    ensures Candidates(TWICE_LISTED, 1, 0) == [Annotated(1, ScheduledRef(STORED)), Annotated(1, ScheduledRef(STORED))]
  {
    TwoProgramPaths();
    var m := TWICE_LISTED;
    var program := m.programs[21];
    assert [7][1..] == [] && Lookup([], m.controls) == [];
    assert Lookup([7], m.controls) == [STORED];
    assert StoredControls(m, program) == [STORED];
    assert ScheduledAhead(1, [STORED], 0) == [Annotated(1, ScheduledRef(STORED))];
    assert [program, program][1..] == [program];
    assert [program][1..] == [] && [STORED][1..] == [];
    assert DefaultOf(m, program) == [] && CandidatesOf(m, [], 0) == [];
    assert CandidatesOf(m, [program], 0) == [Annotated(1, ScheduledRef(STORED))];
  }

  // A wait task replaced too late.

  const ONE_PATH := TWO_PATHS.(
                    fsaLists := map["/fsa" := IDList("/fsa", [11], None)],
                    fsas := map[11 := FsaResource(11, Some("/fsa/11"), Some("/derp"))],
                    controlLists := map["/derc" := IDList("/derc", [7], None)],
                    controls := map[7 := STORED])

  const OTHER := CONTROL.(mrid := 8, href := Some("/derc/8"))

  /** A second control is added that starts in the same second. */
  const SECOND_ADDED := ControlListUpdate(ListResource(Some("/derc"), None, [CONTROL, OTHER]))

  const BOTH := ONE_PATH.(
                controlLists := map["/derc" := IDList("/derc", [7, 8], None)],
                controls := map[7 := STORED, 8 := ScheduledControl(OTHER, 100, 10)])

  const BOTH_HREFS := {"/edev/1", "/fsa", "/fsa/11", "/derp", "/derp/21", "/derc", "/derc/7", "/derc/8"}

  const FIRST_START := DERControlStatusChanged(7, EventStarted, "/reply")

  const SECOND_START := DERControlStatusChanged(8, EventStarted, "/reply")

  lemma SecondIsMerged(model: ModelState, env: Env)
    requires model == ONE_PATH && env.draw(1) == Draw(0, 0)
    ensures Merged(model, SECOND_ADDED, env) == BOTH
  {
    var items := [CONTROL, OTHER];
    assert items[..1] == [CONTROL] && items[..1][..0] == [] && [CONTROL][..0] == [];
    assert SetControls(model.controls, [], env) == (model.controls, []);
    assert STORED.(control := CONTROL) == STORED;
    assert SetControls(model.controls, [CONTROL], env).0 == model.controls;
    assert Realise(OTHER, Draw(0, 0)) == ScheduledControl(OTHER, 100, 10);
    assert SetControls(model.controls, items, env).0 == BOTH.controls;
    assert Ids(items, ControlId) == [7, 8];
  }

  lemma PathIsMarked(m: ModelState)
    requires m == ONE_PATH.(controlLists := m.controlLists, controls := m.controls)
    ensures forall h :: h in {"/edev/1", "/fsa", "/fsa/11", "/derp", "/derp/21", "/derc"} ==> Marked(m, h)
    ensures "/derc" in ControlListHrefs(m)
  {
    assert 1 in m.endDeviceList.value.items && m.endDevices[1] in Devices(m);
    assert DeviceHref(m.endDevices[1]) == Some("/edev/1");
    assert "/fsa" in FsaListHrefs(m) && 11 in m.fsaLists["/fsa"].items;
    assert m.fsas[11] in Fsas(m) && FsaHref(m.fsas[11]) == Some("/fsa/11");
    assert "/derp" in ProgramListHrefs(m) && 21 in m.programLists["/derp"].items;
    assert m.programs[21] in Programs(m) && ProgramHref(m.programs[21]) == Some("/derp/21");
  }

  lemma BothAreMarked(m: ModelState)
    requires m == BOTH
    ensures forall h :: h in BOTH_HREFS ==> Marked(m, h)
  {
    PathIsMarked(m);
    assert [7, 8][0] == 7 && [7, 8][1] == 8;
    assert 7 in m.controlLists["/derc"].items && 8 in m.controlLists["/derc"].items;
    assert m.controls[7] in Controls(m) && ControlHref(m.controls[7]) == Some("/derc/7");
    assert m.controls[8] in Controls(m) && ControlHref(m.controls[8]) == Some("/derc/8");
  }

  lemma MarkedAreLinked(m: ModelState, hrefs: set<Href>)
    requires forall h :: h in hrefs ==> Marked(m, h)
    ensures hrefs <= Links(m).Keys
  {
    forall h | h in hrefs ensures h in Links(m) {
      LinksAreMarked(m, h);
    }
  }

  lemma StoredIsTracked(m: ModelState, tracked: set<Href>)
    requires m == BOTH && BOTH_HREFS <= tracked
    ensures StoredWithin(m, tracked)
  {
  }

  lemma TrackedAreKept(m: ModelState, tracked: set<Href>)
    requires StoredWithin(m, tracked)
    ensures Sweep(m, tracked) == m
  {
    SweepKeepsAllExactly(m, tracked);
  }

  lemma SecondIsApplied(model: ModelState, env: Env)
    requires model == ONE_PATH && env.draw(1) == Draw(0, 0)
    ensures Applied(model, SECOND_ADDED, env) == BOTH
  {
    SecondIsMerged(model, env);
    var m := Merged(model, SECOND_ADDED, env);
    BothAreMarked(m);
    MarkedAreLinked(m, BOTH_HREFS);
    StoredIsTracked(m, Links(m).Keys);
    TrackedAreKept(m, Links(m).Keys);
  }

  // What is ahead and what is predicted, before and after.

  lemma CandidatesOfPath(m: ModelState, ids: seq<Mrid>, now: Seconds)
    requires m == ONE_PATH.(controlLists := map["/derc" := IDList("/derc", ids, None)], controls := m.controls)
    ensures ProgramsForDevice(m, 1) == [m.programs[21]] && Paths(m, 1, 7) == Occurrences(ids, 7)
    ensures Candidates(m, 1, now) == ScheduledAhead(1, Lookup(ids, m.controls), now)
  {
    var fsas := ListItems(Get(m.fsaLists, "/fsa"), m.fsas);
    var program := m.programs[21];
    assert [11][1..] == [] && [21][1..] == [];
    assert fsas == [m.fsas[11]] && fsas[1..] == [];
    assert ProgramsOf(m, []) == [];
    assert ListItems(Get(m.programLists, "/derp"), m.programs) == [program];
    assert [program][1..] == [];
    assert DefaultOf(m, program) == [] && CandidatesOf(m, [], now) == [];
    assert PathsFrom(m, [], 7) == 0 && MentionsBelow(m, program, 7) == Occurrences(ids, 7);
  }

  lemma OnePrediction(m: ModelState)
    requires m == ONE_PATH
    ensures CalcNext(m, 1, 0) == Prediction(Some(100), [FIRST_START])
    ensures Paths(m, 1, 7) == 1
  {
    CandidatesOfPath(m, [7], 0);
    var c := Annotated(1, ScheduledRef(STORED));
    assert [7][1..] == [] && Lookup([], m.controls) == [];
    assert Lookup([7], m.controls) == [STORED] && [STORED][1..] == [];
    assert Candidates(m, 1, 0) == [c];
    assert [c][1..] == [] && Sort([c]) == [c];
    assert AllControls(m, 1, 0) == [ScheduledRef(STORED)];
    OneOfBoth(STORED, 0, FIRST_START);
    assert [ScheduledRef(STORED)][1..] == [];
    var b := FutureBoundaries([ScheduledRef(STORED)], 0);
    assert FutureBoundaries([], 0) == [];
    assert b == BoundariesOf(ScheduledRef(STORED));
    assert b[1..] == [b[1]] && b[1..][1..] == [];
    assert Earliest(b[1..]) == Some(110);
    assert ResponsesAt(b[1..], 100) == [];
  }

  lemma OneOfBoth(c: ScheduledControl, now: Seconds, start: Event)
    requires c.startTime == 100 && c.duration == 10 && now < 100
    requires ResponseIfRequired(c.control, true, EventStarted) == [start]
    ensures var b := BoundariesOf(ScheduledRef(c));
            After(b, now) == b && |b| == 2 && b[0] == Boundary(100, [start]) && b[1].time == 110
  {
    var b := BoundariesOf(ScheduledRef(c));
    assert b[1..] == [b[1]] && b[1..][1..] == [];
    assert After([], now) == [];
    assert After(b[1..], now) == [b[1]];
  }

  lemma TwoPredictions(m: ModelState)
    requires m == BOTH
    ensures CalcNext(m, 1, 99) == Prediction(Some(100), [FIRST_START, SECOND_START])
    ensures Paths(m, 1, 7) == 1
  {
    var x, y := m.controls[7], m.controls[8];
    var c, d := Annotated(1, ScheduledRef(x)), Annotated(1, ScheduledRef(y));
    CandidatesOfPath(m, [7, 8], 99);
    assert [7, 8][1..] == [8] && [8][1..] == [] && Lookup([], m.controls) == [];
    assert Occurrences([8], 7) == 0 && Lookup([8], m.controls) == [y];
    assert Lookup([7, 8], m.controls) == [x, y] && [x, y][1..] == [y] && [y][1..] == [];
    assert ScheduledAhead(1, [], 99) == [] && ScheduledAhead(1, [y], 99) == [d];
    assert Candidates(m, 1, 99) == [c, d];
    assert [c, d][1..] == [d] && [d][1..] == [] && Sort([d]) == [d] && Sort([c, d]) == [c, d];
    assert AllControls(m, 1, 99) == [c.control, d.control];
    TwoStarts(x, y);
  }

  lemma TwoStarts(x: ScheduledControl, y: ScheduledControl)
    requires x.startTime == 100 && x.duration == 10 && y.startTime == 100 && y.duration == 10
    requires ResponseIfRequired(x.control, true, EventStarted) == [FIRST_START]
    requires ResponseIfRequired(y.control, true, EventStarted) == [SECOND_START]
    ensures CalcNextForControls([ScheduledRef(x), ScheduledRef(y)], 99)
         == Prediction(Some(100), [FIRST_START, SECOND_START])
  {
    var controls := [ScheduledRef(x), ScheduledRef(y)];
    OneOfBoth(x, 99, FIRST_START);
    OneOfBoth(y, 99, SECOND_START);
    assert controls[1..] == [ScheduledRef(y)] && [ScheduledRef(y)][1..] == [] && FutureBoundaries([], 99) == [];
    var b := FutureBoundaries(controls, 99);
    var p, q := BoundariesOf(controls[0]), BoundariesOf(controls[1]);
    assert FutureBoundaries(controls[1..], 99) == q + [];
    assert b == p + q == [p[0], p[1], q[0], q[1]];
    assert b[1..] == [p[1], q[0], q[1]] && b[1..][1..] == q && q[1..] == [q[1]] && q[1..][1..] == [];
    assert Earliest(q[1..]) == Some(110) && Earliest(q) == Some(100) && Earliest(b[1..]) == Some(100);
    assert ResponsesAt(q[1..], 100) == [] && ResponsesAt(q, 100) == [SECOND_START] == ResponsesAt(b[1..], 100);
  }

  function FirstPass(first: Env): seq<Action> {
    [MergeCommand(NextSchedule, first), PlanAt(0), RearmTimer]
  }

  function SecondPass(update: Update, second: Env): seq<Action> {
    [MergeCommand(ResourceUpdated(update), second), PlanAt(99)]
  }

  /**
   The wait task is armed for second 100. In second 99 an update adds a control that starts in second 100 too; the
   loop has predicted for second 99 when second 100 comes, the wait task broadcasts, and only then is it replaced.
   */
  function LateRun(update: Update, first: Env, second: Env): seq<Action> {
    FirstPass(first) + SecondPass(update, second) + [Emit(100), RearmTimer] + [Emit(100), Emit(100)]
  }

  const FIRST_NEXT := Prediction(Some(100), [FIRST_START])

  const SECOND_NEXT := Prediction(Some(100), [FIRST_START, SECOND_START])

  predicate Unreported(w: World) {
    CountResponses(w.log, 7, EventStarted) == 0
  }

  /** A step of a run in which control 7 resides. */
  ghost predicate LeadsTo(w: World, action: Action, after: World) {
    CanAct(w, action) && after == Act(w, 1, action) && StepResides(w, 1, action, 7)
  }

  ghost predicate ResidingRun(worlds: seq<World>, actions: seq<Action>) {
    && |worlds| == |actions| + 1
    && forall i :: 0 <= i < |actions| ==> LeadsTo(worlds[i], actions[i], worlds[i + 1])
  }

  lemma ResidingRunIsRun(worlds: seq<World>, actions: seq<Action>)
    requires ResidingRun(worlds, actions)
    ensures IsRun(worlds, 1, actions) && RunResides(worlds, 1, actions, 7)
  {
    forall i | 0 <= i < |actions|
      ensures CanAct(worlds[i], actions[i]) && worlds[i + 1] == Act(worlds[i], 1, actions[i])
      ensures StepResides(worlds[i], 1, actions[i], 7)
    {
      assert LeadsTo(worlds[i], actions[i], worlds[i + 1]);
    }
  }

  lemma AndThen(worlds: seq<World>, actions: seq<Action>, action: Action, after: World)
    requires ResidingRun(worlds, actions) && LeadsTo(worlds[|actions|], action, after)
    ensures ResidingRun(worlds + [after], actions + [action])
  {
    var all, acts := worlds + [after], actions + [action];
    forall i | 0 <= i < |acts| ensures LeadsTo(all[i], acts[i], all[i + 1]) {
      if i < |actions| {
        assert all[i] == worlds[i] && all[i + 1] == worlds[i + 1] && acts[i] == actions[i];
        assert LeadsTo(worlds[i], actions[i], worlds[i + 1]);
      } else {
        assert all[i] == worlds[|actions|] && all[i + 1] == after && acts[i] == action;
      }
    }
  }

  lemma OnePathListsOnce(m: ModelState)
    requires KeysMatch(m) && Paths(m, 1, 7) == 1
    ensures ListedOnce(m, 1, 7)
  {
    ListedOnceExactly(m, 1, 7);
  }

  lemma Waking(w: World, first: Env) returns (after: World)
    requires w.phase.Idle? && w.clock <= first.now && Unreported(w)
    ensures LeadsTo(w, MergeCommand(NextSchedule, first), after) && Unreported(after)
    ensures after.state == w.state && after.phase == AfterMerge && after.clock == first.now
  {
    after := Act(w, 1, MergeCommand(NextSchedule, first));
    assert after.log == w.log;
  }

  lemma Updating(w: World, update: Update, second: Env, m: ModelState) returns (after: World)
    requires w.phase.Idle? && w.clock <= second.now && Unreported(w)
    requires m == Applied(w.state.model, update, second) && 7 in w.state.model.controls && 7 in m.controls
    ensures LeadsTo(w, MergeCommand(ResourceUpdated(update), second), after) && Unreported(after)
    ensures after.state == w.state.(model := m) && after.phase == AfterMerge && after.clock == second.now
  {
    UpdateReports(w.state.model, update, second, 7);
    CountConcat(w.log, UpdateEvents(w.state.model, update, second), 7, EventStarted);
    after := Act(w, 1, MergeCommand(ResourceUpdated(update), second));
  }

  lemma Planning(w: World, now: Seconds, next: Prediction) returns (after: World)
    requires w.phase == AfterMerge && w.clock <= now && Unreported(w)
    requires CalcNext(w.state.model, 1, now) == next && ListedOnce(w.state.model, 1, 7)
    ensures LeadsTo(w, PlanAt(now), after) && Unreported(after)
    ensures after.phase == AfterPlan(next) && after.clock == now && after.state.model == w.state.model
    ensures after.state.timer == w.state.timer && after.state.priorNext == w.state.priorNext
  {
    AnnouncementsReportNothing(w.state, 1, now, 7, EventStarted);
    CountConcat(w.log, Announcements(w.state, 1, now), 7, EventStarted);
    after := Act(w, 1, PlanAt(now));
  }

  lemma Rearming(w: World, next: Prediction) returns (after: World)
    requires w.phase == AfterPlan(next) && w.state.priorNext != next
    ensures LeadsTo(w, RearmTimer, after) && after.phase.Idle? && after.clock == w.clock && after.log == w.log
    ensures after.state.model == w.state.model && after.state.timer == Some(WaitTask(next, 0))
    ensures after.state.priorNext == next
  {
    after := Act(w, 1, RearmTimer);
  }

  lemma Emitting(w: World, now: Seconds, t: WaitTask) returns (after: World)
    requires w.clock <= now && w.state.timer == Some(t) && t.sent < |t.next.events|
    requires t.next.time.Some? && t.next.time.value <= now
    ensures var event := t.next.events[t.sent];
            && LeadsTo(w, Emit(now), after) && after.phase == w.phase && after.clock == now
            && after.state.priorNext == w.state.priorNext && after.state.timer == Some(t.(sent := t.sent + 1))
            && CountResponses(after.log, 7, EventStarted)
               == CountResponses(w.log, 7, EventStarted) + CountResponses([event], 7, EventStarted)
  {
    after := Act(w, 1, Emit(now));
    CountConcat(w.log, [t.next.events[t.sent]], 7, EventStarted);
  }

  lemma Armed(start: World, model: ModelState, first: Env) returns (worlds: seq<World>)
    requires start.phase.Idle? && start.clock == first.now == 0 && Unreported(start)
    requires start.state.model == model && start.state.priorNext != FIRST_NEXT
    requires CalcNext(model, 1, 0) == FIRST_NEXT && ListedOnce(model, 1, 7)
    ensures ResidingRun(worlds, FirstPass(first)) && worlds[0] == start
    ensures var w := worlds[3];
            && w.state.model == model && w.phase.Idle? && w.clock == 0 && Unreported(w)
            && w.state.priorNext == FIRST_NEXT && w.state.timer == Some(WaitTask(FIRST_NEXT, 0))
  {
    var actions := [];
    worlds := [start];
    var a := Waking(start, first);
    AndThen(worlds, actions, MergeCommand(NextSchedule, first), a);
    worlds, actions := worlds + [a], actions + [MergeCommand(NextSchedule, first)];
    var b := Planning(a, 0, FIRST_NEXT);
    AndThen(worlds, actions, PlanAt(0), b);
    worlds, actions := worlds + [b], actions + [PlanAt(0)];
    var c := Rearming(b, FIRST_NEXT);
    AndThen(worlds, actions, RearmTimer, c);
    worlds, actions := worlds + [c], actions + [RearmTimer];
    assert actions == FirstPass(first);
  }

  lemma Predicted(before: seq<World>, past: seq<Action>, w: World, update: Update, second: Env, m: ModelState)
    returns (worlds: seq<World>)
    requires ResidingRun(before, past) && before[|past|] == w
    requires w.phase.Idle? && w.clock <= second.now == 99 && Unreported(w)
    requires m == Applied(w.state.model, update, second) && 7 in w.state.model.controls && 7 in m.controls
    requires CalcNext(m, 1, 99) == SECOND_NEXT && ListedOnce(m, 1, 7)
    ensures ResidingRun(worlds, past + SecondPass(update, second)) && worlds[0] == before[0]
    ensures var e := worlds[|past| + 2];
            && e.phase == AfterPlan(SECOND_NEXT) && e.clock == 99 && Unreported(e)
            && e.state.timer == w.state.timer && e.state.priorNext == w.state.priorNext
  {
    var merge := MergeCommand(ResourceUpdated(update), second);
    var d, e := UpdatedAndPlanned(w, update, second, m);
    worlds := AndThenTwo(before, past, merge, d, PlanAt(99), e);
  }

  lemma AndThenTwo(before: seq<World>, past: seq<Action>, x: Action, d: World, y: Action, e: World)
    returns (worlds: seq<World>)
    requires ResidingRun(before, past) && LeadsTo(before[|past|], x, d) && LeadsTo(d, y, e)
    ensures ResidingRun(worlds, past + [x, y]) && worlds[0] == before[0] && worlds[|past| + 2] == e
  {
    AndThen(before, past, x, d);
    AndThen(before + [d], past + [x], y, e);
    worlds := before + [d] + [e];
    assert past + [x] + [y] == past + [x, y];
  }

  lemma UpdatedAndPlanned(w: World, update: Update, second: Env, m: ModelState) returns (d: World, e: World)
    requires w.phase.Idle? && w.clock <= second.now == 99 && Unreported(w)
    requires m == Applied(w.state.model, update, second) && 7 in w.state.model.controls && 7 in m.controls
    requires CalcNext(m, 1, 99) == SECOND_NEXT && ListedOnce(m, 1, 7)
    ensures LeadsTo(w, MergeCommand(ResourceUpdated(update), second), d) && LeadsTo(d, PlanAt(99), e)
    ensures e.phase == AfterPlan(SECOND_NEXT) && e.clock == 99 && Unreported(e)
    ensures e.state.timer == w.state.timer && e.state.priorNext == w.state.priorNext
  {
    d := Updating(w, update, second, m);
    e := Planning(d, 99, SECOND_NEXT);
  }

  lemma Replaced(before: seq<World>, past: seq<Action>) returns (worlds: seq<World>)
    requires ResidingRun(before, past)
    requires var w := before[|past|];
             && w.phase == AfterPlan(SECOND_NEXT) && w.clock == 99 && Unreported(w)
             && w.state.priorNext == FIRST_NEXT && w.state.timer == Some(WaitTask(FIRST_NEXT, 0))
    ensures ResidingRun(worlds, past + [Emit(100), RearmTimer]) && worlds[0] == before[0]
    ensures var w := worlds[|past| + 2];
            && CountResponses(w.log, 7, EventStarted) == 1 && w.clock == 100
            && w.state.timer == Some(WaitTask(SECOND_NEXT, 0))
  {
    var f := Emitting(before[|past|], 100, WaitTask(FIRST_NEXT, 0));
    var g := Rearming(f, SECOND_NEXT);
    worlds := AndThenTwo(before, past, Emit(100), f, RearmTimer, g);
  }

  lemma Repeated(before: seq<World>, past: seq<Action>) returns (worlds: seq<World>)
    requires ResidingRun(before, past) && CountResponses(before[|past|].log, 7, EventStarted) == 1
    requires before[|past|].clock == 100 && before[|past|].state.timer == Some(WaitTask(SECOND_NEXT, 0))
    ensures ResidingRun(worlds, past + [Emit(100), Emit(100)]) && worlds[0] == before[0]
    ensures CountResponses(worlds[|past| + 2].log, 7, EventStarted) == 2
  {
    var h := Emitting(before[|past|], 100, WaitTask(SECOND_NEXT, 0));
    var i := Emitting(h, 100, WaitTask(SECOND_NEXT, 1));
    worlds := AndThenTwo(before, past, Emit(100), h, Emit(100), i);
  }

  lemma LateRunStartsTwice(start: World, model: ModelState, update: Update, after: ModelState, first: Env, second: Env)
    returns (worlds: seq<World>)
    requires start.phase.Idle? && start.clock == first.now == 0 && second.now == 99 && Unreported(start)
    requires start.state.model == model && start.state.priorNext != FIRST_NEXT
    requires CalcNext(model, 1, 0) == FIRST_NEXT && ListedOnce(model, 1, 7) && 7 in model.controls
    requires after == Applied(model, update, second) && 7 in after.controls
    requires CalcNext(after, 1, 99) == SECOND_NEXT && ListedOnce(after, 1, 7)
    ensures IsRun(worlds, 1, LateRun(update, first, second)) && worlds[0] == start
    ensures RunResides(worlds, 1, LateRun(update, first, second), 7)
    ensures CountResponses(worlds[9].log, 7, EventStarted) == 2
  {
    var actions := FirstPass(first);
    worlds := Armed(start, model, first);
    worlds := Predicted(worlds, actions, worlds[3], update, second, after);
    actions := actions + SecondPass(update, second);
    worlds := Replaced(worlds, actions);
    worlds := Repeated(worlds, actions + [Emit(100), RearmTimer]);
    ResidingRunIsRun(worlds, LateRun(update, first, second));
  }

  lemma BeforeSecond(model: ModelState)
    requires model == ONE_PATH
    ensures CalcNext(model, 1, 0) == FIRST_NEXT && ListedOnce(model, 1, 7) && 7 in model.controls && KeysMatch(model)
  {
    OnePrediction(model);
    OnePathListsOnce(model);
  }

  lemma AfterSecond(after: ModelState)
    requires after == BOTH
    ensures CalcNext(after, 1, 99) == SECOND_NEXT && ListedOnce(after, 1, 7) && 7 in after.controls
  {
    TwoPredictions(after);
    OnePathListsOnce(after);
  }

  /** The start of control 7 is reported twice, although the control stays in the model and one path leads to it. */
  lemma LateRearmingStartsTwice(model: ModelState, first: Env, second: Env) returns (worlds: seq<World>)
    requires model == ONE_PATH && first.now == 0 && second.now == 99 && second.draw(1) == Draw(0, 0)
    ensures IsRun(worlds, 1, LateRun(SECOND_ADDED, first, second))
    ensures StartsFresh(worlds[0], model) && KeysMatch(model)
    ensures RunResides(worlds, 1, LateRun(SECOND_ADDED, first, second), 7)
    ensures CountResponses(worlds[9].log, 7, EventStarted) == 2
  {
    BeforeSecond(model);
    var after := Applied(model, SECOND_ADDED, second);
    SecondIsApplied(model, second);
    AfterSecond(after);
    var start := World(Initial(model), Idle, 0, None, []);
    worlds := LateRunStartsTwice(start, model, SECOND_ADDED, after, first, second);
  }
}
