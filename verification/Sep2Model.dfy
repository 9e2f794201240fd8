/** The stored model as an object that is updated in place, proved against the functions on its value. */
module Sep2Model {
  import opened Wrappers
  import opened ResourceTypes
  import opened ResourceGraph
  import opened LinkEvents
  import Updates = ModelUpdates

  class Model {
    var time: TimeResource
    var fsaLists: map<Href, IDList<Mrid>>
    var programLists: map<Href, IDList<Mrid>>
    var controlLists: map<Href, IDList<Mrid>>
    var curveLists: map<Href, IDList<Mrid>>
    var endDeviceList: Option<IDList<Lfdi>>
    var dcap: Option<DeviceCapability>
    var mupList: Option<MupListResource>
    var derLists: map<Href, DerListResource>
    var endDevices: map<Lfdi, EndDeviceResource>
    var fsas: map<Mrid, FsaResource>
    var programs: map<Mrid, ProgramResource>
    var controls: map<Mrid, ScheduledControl>
    var curves: map<Mrid, CurveResource>
    var defaultControls: map<Href, DefaultControlResource>

    function State(): ModelState
      reads this
    {
      ModelState(time, fsaLists, programLists, controlLists, curveLists, endDeviceList, dcap, mupList, derLists,
                 endDevices, fsas, programs, controls, curves, defaultControls)
    }

    /** A model restored from a persisted value, or the empty one. */
    constructor (state: ModelState)
      ensures State() == state
    {
      time, fsaLists, programLists, controlLists := state.time, state.fsaLists, state.programLists, state.controlLists;
      curveLists, endDeviceList, dcap, mupList := state.curveLists, state.endDeviceList, state.dcap, state.mupList;
      derLists, endDevices, fsas, programs := state.derLists, state.endDevices, state.fsas, state.programs;
      controls, curves, defaultControls := state.controls, state.curves, state.defaultControls;
    }

    method SetEndDevice(incoming: EndDeviceResource)
      modifies this
      ensures State() == old(State()).(
                         endDevices := Updates.InsertAll(old(endDevices), Updates.DevicesWithLfdi([incoming]),
                                                         Updates.DeviceId))
    {
      assert [incoming][..0] == [];
      if incoming.lfdi.Some? {
        assert Updates.DevicesWithLfdi([incoming]) == [incoming];
        endDevices := endDevices[incoming.lfdi.value := incoming];
      }
    }

    method SetEndDeviceList(incoming: ListResource<EndDeviceResource>)
      modifies this
      ensures State() == Updates.SetEndDeviceList(old(State()), incoming)
    {
      if incoming.href.None? {
        return;
      }
      var known := Updates.DevicesWithLfdi(incoming.items);
      endDeviceList := Some(IDList(incoming.href.value, Updates.Ids(known, Updates.DeviceId), incoming.pollRate));
      ghost var before := State();
      for i := 0 to |incoming.items|
        invariant State() == before.(
                             endDevices := WithDevices(before.endDevices, incoming.items[..i]))
      {
        OneMoreDevice(before.endDevices, incoming.items, i);
        SetEndDevice(incoming.items[i]);
      }
      assert incoming.items[..|incoming.items|] == incoming.items;
    }

    method SetFsa(incoming: FsaResource)
      modifies this
      ensures State() == old(State()).(fsas := old(fsas)[incoming.mrid := incoming])
    {
      fsas := fsas[incoming.mrid := incoming];
    }

    method SetFsaList(incoming: ListResource<FsaResource>)
      modifies this
      ensures State() == Updates.SetFsaList(old(State()), incoming)
    {
      if incoming.href.None? {
        return;
      }
      var href := incoming.href.value;
      fsaLists := fsaLists[href := IDList(href, Updates.Ids(incoming.items, Updates.FsaId), incoming.pollRate)];
      ghost var before := State();
      for i := 0 to |incoming.items|
        invariant State() == before.(fsas := Updates.InsertAll(before.fsas, incoming.items[..i], Updates.FsaId))
      {
        assert incoming.items[..i + 1][..i] == incoming.items[..i];
        SetFsa(incoming.items[i]);
      }
      assert incoming.items[..|incoming.items|] == incoming.items;
    }

    method SetProgram(incoming: ProgramResource)
      modifies this
      ensures State() == old(State()).(programs := old(programs)[incoming.mrid := incoming])
    {
      programs := programs[incoming.mrid := incoming];
    }

    method SetProgramList(incoming: ListResource<ProgramResource>)
      modifies this
      ensures State() == Updates.SetProgramList(old(State()), incoming)
    {
      if incoming.href.None? {
        return;
      }
      var href := incoming.href.value;
      programLists := programLists[href := IDList(href, Updates.Ids(incoming.items, Updates.ProgramId),
                                                  incoming.pollRate)];
      ghost var before := State();
      for i := 0 to |incoming.items|
        invariant State() == before.(programs := Updates.InsertAll(before.programs, incoming.items[..i],
                                                                   Updates.ProgramId))
      {
        assert incoming.items[..i + 1][..i] == incoming.items[..i];
        SetProgram(incoming.items[i]);
      }
      assert incoming.items[..|incoming.items|] == incoming.items;
    }

    /** Inserts or updates one control; an update replaces the received part only, not the realised interval. */
    method SetControl(incoming: ControlResource, draw: Updates.Draw, now: Seconds) returns (events: seq<Event>)
      modifies this
      ensures var (after, answers) := Updates.SetControl(old(controls), incoming, draw, now);
              State() == old(State()).(controls := after) && events == answers
    {
      var mrid := incoming.mrid;
      if mrid in controls {
        var priorStatus := controls[mrid].control.currentStatus;
        var newStatus := incoming.currentStatus;
        events := [];
        if newStatus != priorStatus {
          if newStatus == Cancelled {
            events := Updates.ResponseIfRequired(incoming, true, EventCancelled);
          } else if newStatus == Superseded {
            events := Updates.ResponseIfRequired(incoming, true, EventSuperseded);
          }
        }
        controls := controls[mrid := controls[mrid].(control := incoming)];
      } else {
        var startTime := incoming.intervalStart + draw.startShift;
        var duration := Updates.RealisedDuration(incoming.intervalDuration, draw.durationShift);
        var control := ScheduledControl(incoming, startTime, duration);
        controls := controls[mrid := control];
        var alreadyStarted := incoming.currentStatus == Active && startTime <= now && control.EndTime() > now;
        events := Updates.ResponseIfRequired(incoming, false, EventReceived);
        if alreadyStarted {
          events := events + Updates.ResponseIfRequired(incoming, true, EventStarted);
        }
      }
    }

    method SetControlList(incoming: ListResource<ControlResource>, env: Updates.Env) returns (events: seq<Event>)
      modifies this
      ensures (State(), events) == Updates.SetControlList(old(State()), incoming, env)
    {
      events := [];
      if incoming.href.None? {
        return;
      }
      var href := incoming.href.value;
      controlLists := controlLists[href := IDList(href, Updates.Ids(incoming.items, Updates.ControlId), None)];
      ghost var before := State();
      for i := 0 to |incoming.items|
        invariant State() == before.(controls := Updates.SetControls(before.controls, incoming.items[..i], env).0)
        invariant events == Updates.SetControls(before.controls, incoming.items[..i], env).1
      {
        assert incoming.items[..i + 1][..i] == incoming.items[..i];
        var more := SetControl(incoming.items[i], env.draw(i), env.now);
        events := events + more;
      }
      assert incoming.items[..|incoming.items|] == incoming.items;
    }

    method SetCurve(incoming: CurveResource)
      modifies this
      ensures State() == old(State()).(curves := old(curves)[incoming.mrid := incoming])
    {
      curves := curves[incoming.mrid := incoming];
    }

    method SetCurveList(incoming: ListResource<CurveResource>)
      modifies this
      ensures State() == Updates.SetCurveList(old(State()), incoming)
    {
      if incoming.href.None? {
        return;
      }
      var href := incoming.href.value;
      curveLists := curveLists[href := IDList(href, Updates.Ids(incoming.items, Updates.CurveId), None)];
      ghost var before := State();
      for i := 0 to |incoming.items|
        invariant State() == before.(curves := Updates.InsertAll(before.curves, incoming.items[..i], Updates.CurveId))
      {
        assert incoming.items[..i + 1][..i] == incoming.items[..i];
        SetCurve(incoming.items[i]);
      }
      assert incoming.items[..|incoming.items|] == incoming.items;
    }

    method SetDefaultControl(incoming: DefaultControlResource)
      modifies this
      ensures State() == Updates.SetDefaultControl(old(State()), incoming)
    {
      if incoming.href.Some? {
        defaultControls := defaultControls[incoming.href.value := incoming];
      }
    }

    method SetDerList(incoming: DerListResource)
      modifies this
      ensures State() == Updates.SetDerList(old(State()), incoming)
    {
      if incoming.href.Some? {
        derLists := derLists[incoming.href.value := incoming];
      }
    }

    /** Lists and the MirrorUsagePointList go by their own href. The EndDeviceList stays. */
    method DropUntrackedLists(tracked: set<Href>)
      modifies `fsaLists, `programLists, `controlLists, `curveLists, `derLists, `mupList
      ensures fsaLists == RetainKeys(old(fsaLists), tracked) && programLists == RetainKeys(old(programLists), tracked)
      ensures controlLists == RetainKeys(old(controlLists), tracked)
              && curveLists == RetainKeys(old(curveLists), tracked)
      ensures derLists == RetainKeys(old(derLists), tracked)
      ensures mupList == if old(mupList).Some? && !Tracked(old(mupList).value.href, tracked) then None else old(mupList)
    {
      fsaLists := RetainKeys(fsaLists, tracked);
      programLists := RetainKeys(programLists, tracked);
      controlLists := RetainKeys(controlLists, tracked);
      curveLists := RetainKeys(curveLists, tracked);
      derLists := RetainKeys(derLists, tracked);
      if mupList.Some? && !Tracked(mupList.value.href, tracked) {
        mupList := None;
      }
    }

    /** Entities go by the href they carry, and lacking one they go too. */
    method DropUntrackedEntities(tracked: set<Href>)
      modifies `endDevices, `fsas, `programs, `controls, `curves, `defaultControls
      ensures endDevices == RetainTracked(old(endDevices), DeviceHref, tracked)
              && fsas == RetainTracked(old(fsas), FsaHref, tracked)
      ensures programs == RetainTracked(old(programs), ProgramHref, tracked)
              && controls == RetainTracked(old(controls), ControlHref, tracked)
      ensures curves == RetainTracked(old(curves), CurveHref, tracked)
      ensures defaultControls == RetainTracked(old(defaultControls), DefaultControlHref, tracked)
    {
      endDevices := RetainTracked(endDevices, DeviceHref, tracked);
      fsas := RetainTracked(fsas, FsaHref, tracked);
      programs := RetainTracked(programs, ProgramHref, tracked);
      controls := RetainTracked(controls, ControlHref, tracked);
      curves := RetainTracked(curves, CurveHref, tracked);
      defaultControls := RetainTracked(defaultControls, DefaultControlHref, tracked);
    }

    /** Drops every stored resource whose href the links do not contain. */
    method DropUntrackedResources(links: ResourceLinks)
      modifies this
      ensures State() == Sweep(old(State()), links.Keys)
    {
      DropUntrackedLists(links.Keys);
      DropUntrackedEntities(links.Keys);
    }

    /** Merges a received resource; only control lists call for responses. */
    method MergeUpdate(update: Update, env: Updates.Env) returns (events: seq<Event>)
      modifies this
      ensures (State(), events) == Updates.Merge(old(State()), update, env)
    {
      events := [];
      match update {
        case DeviceCapabilityUpdate(incoming) => dcap := Some(incoming);
        case TimeUpdate(incoming) => time := incoming;
        case EndDeviceListUpdate(incoming) => SetEndDeviceList(incoming);
        case FsaListUpdate(incoming) => SetFsaList(incoming);
        case ProgramListUpdate(incoming) => SetProgramList(incoming);
        case ControlListUpdate(incoming) => events := SetControlList(incoming, env);
        case CurveListUpdate(incoming) => SetCurveList(incoming);
        case DefaultControlUpdate(incoming) => SetDefaultControl(incoming);
        case DerListUpdate(incoming) => SetDerList(incoming);
        case MupListUpdate(incoming) => mupList := Some(incoming);
      }
    }

    /** Merges a received resource, sweeps, and returns the changes to announce and the responses to send. */
    method ApplyUpdate(update: Update, env: Updates.Env) returns (events: seq<Event>)
      modifies this
      ensures State() == Updates.Applied(old(State()), update, env)
      ensures events == Updates.UpdateEvents(old(State()), update, env)
    {
      var linksBefore := Links(State());
      var controlEvents := MergeUpdate(update, env);
      var linksAfter := Links(State());
      DropUntrackedResources(linksAfter);
      events := LinkEventsBetween(linksBefore, linksAfter) + controlEvents;
    }

    /** All known resources, as if they were new. */
    method RefreshKnownLinks() returns (events: seq<Event>)
      ensures events == Updates.RefreshEvents(State())
      ensures forall table: ResourceLinks :: table.Keys <= Links(State()).Keys
                                             ==> Replay(events, table) == Links(State())
    {
      forall table: ResourceLinks | table.Keys <= Links(State()).Keys
        ensures Replay(LinkEventsBetween(map[], Links(State())), table) == Links(State())
      {
        RefreshRepairs(table, Links(State()));
      }
      events := LinkEventsBetween(map[], Links(State()));
    }
  }

  lemma OneMoreDevice(stored: map<Lfdi, EndDeviceResource>, devices: seq<EndDeviceResource>, i: nat)
    requires i < |devices|
    ensures Updates.InsertAll(stored, Updates.DevicesWithLfdi(devices[..i + 1]), Updates.DeviceId)
         == Updates.InsertAll(Updates.InsertAll(stored, Updates.DevicesWithLfdi(devices[..i]), Updates.DeviceId),
                              Updates.DevicesWithLfdi([devices[i]]), Updates.DeviceId)
  {
    assert devices[..i + 1][..i] == devices[..i];
    assert [devices[i]][..0] == [];
    var known := Updates.DevicesWithLfdi(devices[..i]);
    if devices[i].lfdi.Some? {
      assert Updates.DevicesWithLfdi(devices[..i + 1]) == known + [devices[i]];
      assert Updates.DevicesWithLfdi([devices[i]]) == [devices[i]];
      InsertLast(stored, known, devices[i], Updates.DeviceId);
      InsertLast(Updates.InsertAll(stored, known, Updates.DeviceId), [], devices[i], Updates.DeviceId);
    } else {
      assert Updates.DevicesWithLfdi([devices[i]]) == [];
      assert Updates.DevicesWithLfdi(devices[..i + 1]) == known;
    }
  }

  lemma InsertLast<K(!new), V>(stored: map<K, V>, items: seq<V>, item: V, idOf: V -> K)
    ensures Updates.InsertAll(stored, items + [item], idOf)
         == Updates.InsertAll(stored, items, idOf)[idOf(item) := item]
    ensures items + [item] == [item] <==> items == []
  {
    assert (items + [item])[..|items|] == items;
    if items == [] { assert items + [item] == [item]; }
  }

  function WithDevices(
    stored: map<Lfdi, EndDeviceResource>, devices: seq<EndDeviceResource>): map<Lfdi, EndDeviceResource>
  {
    Updates.InsertAll(stored, Updates.DevicesWithLfdi(devices), Updates.DeviceId)
  }
}
