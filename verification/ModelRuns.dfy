/** Whole runs of updates: the announced links telescope, exactly as long as no sweep loses a link. */
module ModelRuns {
  import opened Wrappers
  import opened ResourceTypes
  import opened ResourceGraph
  import opened SweepCorrectness
  import opened LinkEvents
  import opened ModelUpdates

  datatype Step = Step(update: Update, env: Env)

  function AfterRun(m: ModelState, steps: seq<Step>): ModelState {
    if steps == [] then m else
    var n := |steps| - 1;
    Applied(AfterRun(m, steps[..n]), steps[n].update, steps[n].env)
  }

  function RunEvents(m: ModelState, steps: seq<Step>): seq<Event> {
    if steps == [] then [] else
    var n := |steps| - 1;
    RunEvents(m, steps[..n]) + UpdateEvents(AfterRun(m, steps[..n]), steps[n].update, steps[n].env)
  }

  // Hrefs.

  predicate HasHrefs<T>(items: seq<T>, hrefOf: T -> Option<Href>) {
    forall i :: 0 <= i < |items| ==> hrefOf(items[i]).Some?
  }

  function IncomingControlHref(control: ControlResource): Option<Href> { control.href }

  /** Every item of a received list carries an href, as the standard asks of servers. */
  predicate UpdateHasHrefs(update: Update) {
    match update
    case EndDeviceListUpdate(list) => HasHrefs(list.items, DeviceHref)
    case FsaListUpdate(list) => HasHrefs(list.items, FsaHref)
    case ProgramListUpdate(list) => HasHrefs(list.items, ProgramHref)
    case ControlListUpdate(list) => HasHrefs(list.items, IncomingControlHref)
    case CurveListUpdate(list) => HasHrefs(list.items, CurveHref)
    case _ => true
  }

  lemma {:induction false} InsertAllHrefs<K(!new), V>(stored: map<K, V>, items: seq<V>, idOf: V -> K,
                                                      hrefOf: V -> Option<Href>)
    requires EachHasHref(stored, hrefOf)
    requires HasHrefs(items, hrefOf)
    ensures EachHasHref(InsertAll(stored, items, idOf), hrefOf)
  {
    if items != [] {
      InsertAllHrefs(stored, items[..|items| - 1], idOf, hrefOf);
    }
  }

  lemma {:induction false} SetControlsHrefs(controls: map<Mrid, ScheduledControl>, incoming: seq<ControlResource>,
                                            env: Env)
    requires EachHasHref(controls, ControlHref)
    requires HasHrefs(incoming, IncomingControlHref)
    ensures EachHasHref(SetControls(controls, incoming, env).0, ControlHref)
  {
    if incoming != [] {
      var n := |incoming| - 1;
      SetControlsHrefs(controls, incoming[..n], env);
      var before := SetControls(controls, incoming[..n], env).0;
      assert IncomingControlHref(incoming[n]).Some?;
      assert SetControls(controls, incoming, env).0 == SetControl(before, incoming[n], env.draw(n), env.now).0;
    }
  }

  lemma {:induction false} DevicesWithLfdiHrefs(devices: seq<EndDeviceResource>)
    requires HasHrefs(devices, DeviceHref)
    ensures HasHrefs(DevicesWithLfdi(devices), DeviceHref)
  {
    if devices != [] {
      DevicesWithLfdiHrefs(devices[..|devices| - 1]);
    }
  }

  lemma DeviceListKeepsHrefs(m: ModelState, list: ListResource<EndDeviceResource>)
    requires AllHrefs(m) && HasHrefs(list.items, DeviceHref)
    ensures AllHrefs(SetEndDeviceList(m, list))
  {
    if list.href.Some? {
      DevicesWithLfdiHrefs(list.items);
      var endDevices := InsertAll(m.endDevices, DevicesWithLfdi(list.items), DeviceId);
      InsertAllHrefs(m.endDevices, DevicesWithLfdi(list.items), DeviceId, DeviceHref);
      assert SetEndDeviceList(m, list).endDevices == endDevices;
    }
  }

  lemma FsaListKeepsHrefs(m: ModelState, list: ListResource<FsaResource>)
    requires AllHrefs(m) && HasHrefs(list.items, FsaHref)
    ensures AllHrefs(SetFsaList(m, list))
  {
    if list.href.Some? {
      var fsas := InsertAll(m.fsas, list.items, FsaId);
      InsertAllHrefs(m.fsas, list.items, FsaId, FsaHref);
      assert SetFsaList(m, list).fsas == fsas;
    }
  }

  lemma ProgramListKeepsHrefs(m: ModelState, list: ListResource<ProgramResource>)
    requires AllHrefs(m) && HasHrefs(list.items, ProgramHref)
    ensures AllHrefs(SetProgramList(m, list))
  {
    if list.href.Some? {
      var programs := InsertAll(m.programs, list.items, ProgramId);
      InsertAllHrefs(m.programs, list.items, ProgramId, ProgramHref);
      assert SetProgramList(m, list).programs == programs;
    }
  }

  lemma ControlListKeepsHrefs(m: ModelState, list: ListResource<ControlResource>, env: Env)
    requires AllHrefs(m) && HasHrefs(list.items, IncomingControlHref)
    ensures AllHrefs(SetControlList(m, list, env).0)
  {
    if list.href.Some? {
      var controls := SetControls(m.controls, list.items, env).0;
      SetControlsHrefs(m.controls, list.items, env);
      assert SetControlList(m, list, env).0.controls == controls;
    }
  }

  lemma CurveListKeepsHrefs(m: ModelState, list: ListResource<CurveResource>)
    requires AllHrefs(m) && HasHrefs(list.items, CurveHref)
    ensures AllHrefs(SetCurveList(m, list))
  {
    if list.href.Some? {
      var curves := InsertAll(m.curves, list.items, CurveId);
      InsertAllHrefs(m.curves, list.items, CurveId, CurveHref);
      assert SetCurveList(m, list).curves == curves;
    }
  }

  lemma MergeKeepsHrefs(m: ModelState, update: Update, env: Env)
    requires AllHrefs(m) && UpdateHasHrefs(update)
    ensures AllHrefs(Merged(m, update, env))
  {
    match update
    case EndDeviceListUpdate(list) => DeviceListKeepsHrefs(m, list);
    case FsaListUpdate(list) => FsaListKeepsHrefs(m, list);
    case ProgramListUpdate(list) => ProgramListKeepsHrefs(m, list);
    case ControlListUpdate(list) => ControlListKeepsHrefs(m, list, env);
    case CurveListUpdate(list) => CurveListKeepsHrefs(m, list);
    case _ =>
  }

  lemma AppliedKeepsHrefs(m: ModelState, update: Update, env: Env)
    requires AllHrefs(m) && UpdateHasHrefs(update)
    ensures AllHrefs(Applied(m, update, env))
  {
    SweepKeepsHrefs(Merged(m, update, env), Links(Merged(m, update, env)).Keys);
  }

  // Telescoping.

  ghost predicate RunHasHrefs(steps: seq<Step>) {
    forall i :: 0 <= i < |steps| ==> UpdateHasHrefs(steps[i].update)
  }

  /** At no step of the run is the MirrorUsagePointList dropped while its link still shows its rate. */
  ghost predicate RunKeepsMupRate(m: ModelState, steps: seq<Step>) {
    steps == [] ||
    var n := |steps| - 1;
    RunKeepsMupRate(m, steps[..n]) && MupRateSurvives(Merged(AfterRun(m, steps[..n]), steps[n].update, steps[n].env))
  }

  ghost predicate OnlyResponses(events: seq<Event>) {
    forall i :: 0 <= i < |events| ==> events[i].DERControlStatusChanged?
  }

  lemma {:induction false} ControlEventsAreResponses(controls: map<Mrid, ScheduledControl>,
                                                     incoming: seq<ControlResource>, env: Env)
    ensures OnlyResponses(SetControls(controls, incoming, env).1)
  {
    if incoming != [] {
      var n := |incoming| - 1;
      ControlEventsAreResponses(controls, incoming[..n], env);
      var (before, events) := SetControls(controls, incoming[..n], env);
      var more := SetControl(before, incoming[n], env.draw(n), env.now).1;
      assert OnlyResponses(more);
      assert SetControls(controls, incoming, env).1 == events + more;
    }
  }

  lemma UpdateControlEventsAreResponses(m: ModelState, update: Update, env: Env)
    ensures OnlyResponses(ControlEvents(m, update, env))
  {
    if update.ControlListUpdate? && update.controls.href.Some? {
      ControlEventsAreResponses(m.controls, update.controls.items, env);
      assert ControlEvents(m, update, env) == SetControls(m.controls, update.controls.items, env).1;
    }
  }

  lemma ReplayUpdate(m: ModelState, update: Update, env: Env, table: ResourceLinks)
    ensures Replay(UpdateEvents(m, update, env), table)
         == Replay(LinkEventsBetween(Links(m), Links(Merged(m, update, env))), table)
  {
    ReplayConcat(LinkEventsBetween(Links(m), Links(Merged(m, update, env))), ControlEvents(m, update, env), table);
    UpdateControlEventsAreResponses(m, update, env);
    ReplayIgnoresOtherEvents(ControlEvents(m, update, env),
                             Replay(LinkEventsBetween(Links(m), Links(Merged(m, update, env))), table));
  }

  /**
   Over any run, replaying the announced events onto a table that started out right gives the
   links of the current model: always the same hrefs, kinds and rates, but for the rate of the
   MirrorUsagePointList, and that one too as long as its list is never dropped from under its link.
   */
  lemma {:induction false} Telescoping(m: ModelState, steps: seq<Step>, table: ResourceLinks)
    requires AllHrefs(m) && RunHasHrefs(steps)
    requires SameButMupRate(table, Links(m))
    ensures AllHrefs(AfterRun(m, steps))
    ensures SameButMupRate(Replay(RunEvents(m, steps), table), Links(AfterRun(m, steps)))
    ensures table == Links(m) && RunKeepsMupRate(m, steps)
            ==> Replay(RunEvents(m, steps), table) == Links(AfterRun(m, steps))
  {
    if steps != [] {
      var n := |steps| - 1;
      var before, step := AfterRun(m, steps[..n]), steps[n];
      Telescoping(m, steps[..n], table);
      ReplayConcat(RunEvents(m, steps[..n]), UpdateEvents(before, step.update, step.env), table);
      TelescopingStep(before, step.update, step.env, Replay(RunEvents(m, steps[..n]), table));
    }
  }

  lemma TelescopingStep(m: ModelState, update: Update, env: Env, table: ResourceLinks)
    requires AllHrefs(m) && UpdateHasHrefs(update)
    requires SameButMupRate(table, Links(m))
    ensures AllHrefs(Applied(m, update, env))
    ensures SameButMupRate(Replay(UpdateEvents(m, update, env), table), Links(Applied(m, update, env)))
    ensures table == Links(m) ==>
              (Replay(UpdateEvents(m, update, env), table) == Links(Applied(m, update, env))
               <==> MupRateSurvives(Merged(m, update, env)))
  {
    var merged := Merged(m, update, env);
    MergeKeepsHrefs(m, update, env);
    AppliedKeepsHrefs(m, update, env);
    ReplayUpdate(m, update, env, table);
    ReplayTelescopes(Links(m), Links(merged), table);
    SweepKeepsLinks(merged);
    SameButMupRateTransitive(Replay(UpdateEvents(m, update, env), table), Links(merged),
                             Links(Applied(m, update, env)));
  }

  /** The replayed table is that of the current model at every point of the run. */
  ghost predicate Throughout(m: ModelState, steps: seq<Step>) {
    && Replay(RunEvents(m, steps), Links(m)) == Links(AfterRun(m, steps))
    && (steps == [] || Throughout(m, steps[..|steps| - 1]))
  }

  /** Rates included, the table is right throughout a run exactly when the MirrorUsagePointList's rate is never lost. */
  lemma {:induction false} ThroughoutExactly(m: ModelState, steps: seq<Step>)
    requires AllHrefs(m) && RunHasHrefs(steps)
    ensures Throughout(m, steps) <==> RunKeepsMupRate(m, steps)
  {
    if steps != [] {
      var n := |steps| - 1;
      var before, step := AfterRun(m, steps[..n]), steps[n];
      ThroughoutExactly(m, steps[..n]);
      Telescoping(m, steps[..n], Links(m));
      ReplayConcat(RunEvents(m, steps[..n]), UpdateEvents(before, step.update, step.env), Links(m));
      if Throughout(m, steps[..n]) {
        TelescopingStep(before, step.update, step.env, Links(before));
      }
    }
  }

  /**
   For any model, with or without hrefs: after one update the replayed table is that of the model (but
   for the one rate) exactly when the merged model has the same links without its href-less items.
   */
  lemma UpdateLosesNothing(m: ModelState, update: Update, env: Env)
    ensures SameButMupRate(Links(Applied(m, update, env)), Replay(UpdateEvents(m, update, env), Links(m)))
       <==> SameButMupRate(Links(WithHrefs(Merged(m, update, env))), Links(Merged(m, update, env)))
  {
    var merged := Merged(m, update, env);
    ReplayUpdate(m, update, env, Links(m));
    ReplayTelescopes(Links(m), Links(merged), Links(m));
    SweepLosesNothing(merged);
  }

  /** But for the one rate, the replayed table is that of the current model at every point of the run. */
  ghost predicate ThroughoutLinks(m: ModelState, steps: seq<Step>) {
    && SameButMupRate(Replay(RunEvents(m, steps), Links(m)), Links(AfterRun(m, steps)))
    && (steps == [] || ThroughoutLinks(m, steps[..|steps| - 1]))
  }

  /** At no step of the run do the merged links need an item without an href. */
  ghost predicate RunLosesNothing(m: ModelState, steps: seq<Step>) {
    steps == [] ||
    var n := |steps| - 1;
    && RunLosesNothing(m, steps[..n])
    && var merged := Merged(AfterRun(m, steps[..n]), steps[n].update, steps[n].env);
    SameButMupRate(Links(WithHrefs(merged)), Links(merged))
  }

  /** For any model and any run, with or without hrefs: the announcements suffice exactly if no step loses a link. */
  lemma {:induction false} ThroughoutLinksExactly(m: ModelState, steps: seq<Step>)
    ensures ThroughoutLinks(m, steps) <==> RunLosesNothing(m, steps)
  {
    if steps != [] {
      var n := |steps| - 1;
      var before, step := AfterRun(m, steps[..n]), steps[n];
      ThroughoutLinksExactly(m, steps[..n]);
      ReplayConcat(RunEvents(m, steps[..n]), UpdateEvents(before, step.update, step.env), Links(m));
      if ThroughoutLinks(m, steps[..n]) {
        StepLosesNothing(before, step.update, step.env, Replay(RunEvents(m, steps[..n]), Links(m)));
      }
    }
  }

  lemma StepLosesNothing(m: ModelState, update: Update, env: Env, table: ResourceLinks)
    requires SameButMupRate(table, Links(m))
    ensures SameButMupRate(Replay(UpdateEvents(m, update, env), table), Links(Applied(m, update, env)))
       <==> SameButMupRate(Links(WithHrefs(Merged(m, update, env))), Links(Merged(m, update, env)))
  {
    var merged := Merged(m, update, env);
    ReplayUpdate(m, update, env, table);
    ReplayTelescopes(Links(m), Links(merged), table);
    SweepLosesNothing(merged);
    SameAsEither(Replay(UpdateEvents(m, update, env), table), Links(merged), Links(Applied(m, update, env)));
  }

  lemma SameAsEither(a: ResourceLinks, b: ResourceLinks, c: ResourceLinks)
    requires SameButMupRate(a, b)
    ensures SameButMupRate(a, c) <==> SameButMupRate(c, b)
  {
  }

  lemma SameButMupRateTransitive(a: ResourceLinks, b: ResourceLinks, c: ResourceLinks)
    requires SameButMupRate(a, b) && SameButMupRate(c, b)
    ensures SameButMupRate(a, c)
  {
  }

  /** The run of a fresh process: the links announced since the empty model are the links of now. */
  lemma TelescopingFromEmpty(steps: seq<Step>)
    requires RunHasHrefs(steps)
    ensures var replayed, links := Replay(RunEvents(EMPTY_MODEL, steps), map[]), Links(AfterRun(EMPTY_MODEL, steps));
            && SameButMupRate(replayed, links)
            && (RunKeepsMupRate(EMPTY_MODEL, steps)
                ==> replayed == links && Replay(RefreshEvents(AfterRun(EMPTY_MODEL, steps)), replayed) == replayed)
  {
    Telescoping(EMPTY_MODEL, steps, map[]);
    RefreshChangesNothing(Links(AfterRun(EMPTY_MODEL, steps)));
  }
}
