/** Inputs on which what the model announces and what it needs part ways. */
module ModelCounterexamples {
  import opened Wrappers
  import opened ResourceTypes
  import opened ResourceGraph
  import opened LinkEvents
  import opened ModelUpdates
  import opened ModelRuns
  import opened ResourceLevels
  import opened Reachability
  import opened ModelSettles
  import opened ControlHistory

  const LOST_DEVICE := EndDeviceResource(Some(1), None, Some("/fsa"), None)

  /**
   A device without an href: its FSA list is announced, and in the same update the sweep drops the
   device, so the model no longer needs the list it has just asked to be polled.
   */
  lemma HreflessDeviceLosesItsLinks(env: Env)
    ensures var update := EndDeviceListUpdate(ListResource(Some("/edev"), None, [LOST_DEVICE]));
            && "/fsa" in Replay(UpdateEvents(EMPTY_MODEL, update, env), map[])
            && "/fsa" !in Links(Applied(EMPTY_MODEL, update, env))
  {
    var update := EndDeviceListUpdate(ListResource(Some("/edev"), None, [LOST_DEVICE]));
    var merged := Merged(EMPTY_MODEL, update, env);
    LostDeviceMerged(env);
    assert 1 in merged.endDeviceList.value.items && LOST_DEVICE in Devices(merged);
    assert "/fsa" in FsaListHrefs(merged);
    LinksAreMarked(merged, "/fsa");
    ReplayUpdate(EMPTY_MODEL, update, env, map[]);
    ReplayTelescopes(map[], Links(merged), map[]);
    LostDeviceSwept(Applied(EMPTY_MODEL, update, env));
  }

  lemma LostDeviceMerged(env: Env)
    ensures Merged(EMPTY_MODEL, EndDeviceListUpdate(ListResource(Some("/edev"), None, [LOST_DEVICE])), env)
         == EMPTY_MODEL.(endDeviceList := Some(IDList("/edev", [1], None)), endDevices := map[1 := LOST_DEVICE])
    ensures Links(EMPTY_MODEL) == map[]
  {
    assert [LOST_DEVICE][..0] == [];
    assert DevicesWithLfdi([LOST_DEVICE]) == [LOST_DEVICE];
    assert Ids([LOST_DEVICE], DeviceId) == [1];
    assert InsertAll(map[], [LOST_DEVICE], DeviceId) == map[1 := LOST_DEVICE];
  }

  lemma LostDeviceSwept(m: ModelState)
    requires m.dcap.None? && m.endDeviceList == Some(IDList("/edev", [1], None)) && m.endDevices == map[]
    ensures "/fsa" !in Links(m)
  {
    LinksAreMarked(m, "/fsa");
    NothingBelow(m);
  }

  lemma NothingBelow(m: ModelState)
    requires m.endDevices == map[]
    ensures Devices(m) == {} && FsaListHrefs(m) == {} && DerListHrefs(m) == {}
    ensures forall h :: !BelowPrograms(m, h) && h !in FsaHrefs(m)
  {
    assert Devices(m) == {};
    assert FsaListHrefs(m) == {} && Fsas(m) == {};
    assert ProgramListHrefs(m) == {} && Programs(m) == {};
    assert ControlListHrefs(m) == {} && CurveListHrefs(m) == {};
  }

  /**
   A MirrorUsagePointList that does not give the href it is linked by: its poll rate is announced,
   then the list is dropped, and the rate the table keeps is one the model has forgotten.
   */
  lemma MupRateCanGoStale(env: Env)
    ensures var entry := EMPTY_MODEL.(dcap := Some(DeviceCapability(None, None, Some("/mup"))));
            var update := MupListUpdate(MupListResource(None, Some(60), []));
            && Replay(UpdateEvents(entry, update, env), Links(entry))
               == map["/mup" := ResourceLink(MirrorUsagePointList, Some(60))]
            && Links(Applied(entry, update, env)) == map["/mup" := ResourceLink(MirrorUsagePointList, None)]
  {
    var entry := EMPTY_MODEL.(dcap := Some(DeviceCapability(None, None, Some("/mup"))));
    var update := MupListUpdate(MupListResource(None, Some(60), []));
    var merged := entry.(mupList := Some(MupListResource(None, Some(60), [])));
    assert Merged(entry, update, env) == merged;
    ReplayUpdate(entry, update, env, Links(entry));
    ReplayTelescopes(Links(entry), Links(merged), Links(entry));
    OnlyMupLink(merged);
    MupListIsDropped(merged);
    OnlyMupLink(Sweep(merged, Links(merged).Keys));
  }

  lemma MupListIsDropped(m: ModelState)
    requires m.endDeviceList.None? && m.dcap == Some(DeviceCapability(None, None, Some("/mup")))
    requires m.mupList.Some? && m.mupList.value.href.None?
    ensures var swept := Sweep(m, Links(m).Keys);
            swept.endDeviceList.None? && swept.dcap == m.dcap && MupListPollRate(swept) == None
  {
  }

  lemma OnlyMupLink(m: ModelState)
    requires m.endDeviceList.None? && m.dcap == Some(DeviceCapability(None, None, Some("/mup")))
    ensures Links(m) == map["/mup" := ResourceLink(MirrorUsagePointList, MupListPollRate(m))]
  {
  }

  const UNLINKED_CONTROL := ControlResource(
                              7, Some("/c/7"), Scheduled, 0, 100, 10, None, None, Some(ResponseRequired(true, true)),
                              Some("/reply"), map[])

  /** A control list that nothing links to is swept at once, so every arrival is acknowledged anew. */
  lemma UnlinkedControlIsAcknowledgedEachTime(env: Env)
    ensures var update := ControlListUpdate(ListResource(Some("/c"), None, [UNLINKED_CONTROL]));
            && Applied(EMPTY_MODEL, update, env) == EMPTY_MODEL
            && UpdateEvents(EMPTY_MODEL, update, env) == [DERControlStatusChanged(7, EventReceived, "/reply")]
  {
    var update := ControlListUpdate(ListResource(Some("/c"), None, [UNLINKED_CONTROL]));
    assert [UNLINKED_CONTROL][..0] == [];
    var (controls, events) := SetControls(map[], [UNLINKED_CONTROL], env);
    assert SetControls(map[], [], env) == (map[], []);
    assert events == [DERControlStatusChanged(7, EventReceived, "/reply")];
    var merged := Merged(EMPTY_MODEL, update, env);
    assert Links(merged) == map[] == Links(EMPTY_MODEL);
    RefreshChangesNothing(map[]);
    var swept := Applied(EMPTY_MODEL, update, env);
    assert swept.controls == map[] && swept.controlLists == map[];
  }

  // A device with two FSAs, both of which link the same program list.

  const CONTROL := ControlResource(
                     7, Some("/derc/7"), Scheduled, 0, 100, 10, None, None, Some(ResponseRequired(true, true)),
                     Some("/reply"), map[])

  const TWO_PATHS := EMPTY_MODEL.(
                     endDeviceList := Some(IDList("/edev", [1], None)),
                     endDevices := map[1 := EndDeviceResource(Some(1), Some("/edev/1"), Some("/fsa"), None)],
                     fsaLists := map["/fsa" := IDList("/fsa", [11, 12], None)],
                     fsas := map[11 := FsaResource(11, Some("/fsa/11"), Some("/derp")),
                                 12 := FsaResource(12, Some("/fsa/12"), Some("/derp"))],
                     programLists := map["/derp" := IDList("/derp", [21], None)],
                     programs := map[21 := ProgramResource(21, Some("/derp/21"), 1, None, Some("/derc"), None)])

  lemma ControlListIsLinked(m: ModelState)
    requires m == TWO_PATHS.(controlLists := m.controlLists, controls := m.controls)
    ensures "/derc" in ControlListHrefs(m)
  {
    assert 1 in m.endDeviceList.value.items;
    assert m.endDevices[1] in Devices(m);
    assert "/fsa" in FsaListHrefs(m) && 11 in m.fsaLists["/fsa"].items;
    assert m.fsas[11] in Fsas(m);
    assert "/derp" in ProgramListHrefs(m) && 21 in m.programLists["/derp"].items;
    assert m.programs[21] in Programs(m);
  }

  const CANCELLED_THEN_SCHEDULED := [CONTROL.(currentStatus := Cancelled), CONTROL]

  /**
   A linked list that mentions a control as cancelled and again as scheduled reports a cancellation
   each time it is received.
   */
  lemma ControlMentionedTwiceIsCancelledEachTime(env: Env, env': Env)
    ensures var update := ControlListUpdate(ListResource(Some("/derc"), None, CANCELLED_THEN_SCHEDULED));
            ControlEvents(Applied(TWO_PATHS, update, env), update, env')
            == [DERControlStatusChanged(7, EventCancelled, "/reply")]
  {
    var list := ListResource(Some("/derc"), None, CANCELLED_THEN_SCHEDULED);
    var merged := Merged(TWO_PATHS, ControlListUpdate(list), env);
    CancelledThenScheduled();
    SetControlsLatest(map[], CANCELLED_THEN_SCHEDULED, env, 7);
    assert Ids(CANCELLED_THEN_SCHEDULED, ControlId)[0] == 7;
    assert merged == TWO_PATHS.(controlLists := merged.controlLists, controls := merged.controls);
    ControlListIsLinked(merged);
    assert merged.controls[7] in Controls(merged) && ControlHref(merged.controls[7]) == Some("/derc/7");
    LinksAreMarked(merged, "/derc/7");
    ControlsAnsweredAgain(TWO_PATHS, list, env, env', Links(merged).Keys);
    AnsweredWithCancellation(Links(merged).Keys, env');
  }

  lemma CancelledThenScheduled()
    ensures var items := CANCELLED_THEN_SCHEDULED;
            Mentions(items[..0], 7) == [] && Mentions(items[..1], 7) == [items[0]] && Mentions(items, 7) == items
  {
    var items := CANCELLED_THEN_SCHEDULED;
    assert items[..1] == [items[0]] && items[..1][..0] == [] && items[..0] == [];
    assert items == [items[0]] + [items[1]];
  }

  lemma AnsweredWithCancellation(tracked: set<Href>, env: Env)
    requires "/derc/7" in tracked
    ensures AnswersAgain(CANCELLED_THEN_SCHEDULED, tracked, env, 2)
         == [DERControlStatusChanged(7, EventCancelled, "/reply")]
  {
    var items := CANCELLED_THEN_SCHEDULED;
    CancelledThenScheduled();
    assert AnswerAgain(items, tracked, env, 0) == [DERControlStatusChanged(7, EventCancelled, "/reply")];
    assert AnswerAgain(items, tracked, env, 1) == [];
    OneMoreAnswered(items, tracked, env, 0);
    OneMoreAnswered(items, tracked, env, 1);
  }
}
