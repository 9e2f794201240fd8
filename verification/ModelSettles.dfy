/**
 Receiving the same resource again. The model never changes a second time; what is announced a second
 time is told exactly.
 */
module ModelSettles {
  import opened Wrappers
  import opened ResourceTypes
  import opened ResourceGraph
  import opened SweepCorrectness
  import opened LinkEvents
  import opened ModelUpdates
  import opened ModelRuns
  import opened ResourceLevels
  import opened Reachability
  import opened ControlHistory

  /** What insertion leaves under a listed id depends on the list alone. */
  lemma {:induction false} InsertAllListed<K(!new), V(!new)>(a: map<K, V>, b: map<K, V>, items: seq<V>, idOf: V -> K,
                                                             k: K)
    requires exists i :: 0 <= i < |items| && idOf(items[i]) == k
    ensures k in InsertAll(a, items, idOf) && k in InsertAll(b, items, idOf)
    ensures InsertAll(a, items, idOf)[k] == InsertAll(b, items, idOf)[k] && InsertAll(a, items, idOf)[k] in items
    ensures idOf(InsertAll(a, items, idOf)[k]) == k
  {
    var n := |items| - 1;
    if idOf(items[n]) != k {
      InsertAllListed(a, b, items[..n], idOf, k);
    }
  }

  lemma {:induction false} InsertAllOthers<K(!new), V(!new)>(a: map<K, V>, items: seq<V>, idOf: V -> K, k: K)
    requires forall i :: 0 <= i < |items| ==> idOf(items[i]) != k
    ensures k in InsertAll(a, items, idOf) <==> k in a
    ensures k in a ==> InsertAll(a, items, idOf)[k] == a[k]
  {
    if items != [] {
      InsertAllOthers(a, items[..|items| - 1], idOf, k);
    }
  }

  /** What is inserted again after a sweep was inserted before, and sweeps to the same. */
  lemma InsertAgain<K(!new), V(!new)>(stored: map<K, V>, items: seq<V>, idOf: V -> K, hrefOf: V -> Option<Href>,
                                      tracked: set<Href>)
    ensures var inserted := InsertAll(stored, items, idOf);
            var kept := RetainTracked(inserted, hrefOf, tracked);
            var again := InsertAll(kept, items, idOf);
            && SubMap(again, inserted) && RetainTracked(again, hrefOf, tracked) == kept
            && (EachHasHref(stored, hrefOf) ==> HeldItems(again, inserted, hrefOf, tracked))
  {
    var inserted := InsertAll(stored, items, idOf);
    var kept := RetainTracked(inserted, hrefOf, tracked);
    var again := InsertAll(kept, items, idOf);
    forall k
      ensures k in again ==> k in inserted && again[k] == inserted[k]
      ensures k in kept ==> k in again
      ensures EachHasHref(stored, hrefOf) && k in inserted && hrefOf(inserted[k]).None? ==> k in again
    {
      if i :| 0 <= i < |items| && idOf(items[i]) == k {
        InsertAllListed(stored, kept, items, idOf, k);
      } else {
        InsertAllOthers(stored, items, idOf, k);
        InsertAllOthers(kept, items, idOf, k);
      }
    }
    assert RetainTracked(again, hrefOf, tracked) == kept;
  }

  lemma PutListAgain<V>(stored: map<Href, V>, href: Href, value: V, tracked: set<Href>)
    ensures var put := stored[href := value];
            var again := RetainKeys(put, tracked)[href := value];
            SubMap(again, put) && RetainKeys(again, tracked) == RetainKeys(put, tracked)
  {
  }

  // Controls.

  /** A control that a list mentions is stored as last mentioned; the others are left alone. */
  lemma {:induction false} SetControlsLatest(controls: map<Mrid, ScheduledControl>, incoming: seq<ControlResource>,
                                             env: Env, id: Mrid)
    ensures var after, mentions := SetControls(controls, incoming, env).0, Mentions(incoming, id);
            && (id in after <==> id in controls || mentions != [])
            && (mentions != [] ==> after[id].control == mentions[|mentions| - 1])
            && (id in controls ==> SameInterval(after[id], controls[id])
                                   && (mentions == [] ==> after[id] == controls[id]))
  {
    if incoming != [] {
      var n := |incoming| - 1;
      SetControlsLatest(controls, incoming[..n], env, id);
      var before := SetControls(controls, incoming[..n], env).0;
      assert SetControls(controls, incoming, env).0 == SetControl(before, incoming[n], env.draw(n), env.now).0;
    }
  }

  ghost predicate SameResources(a: map<Mrid, ScheduledControl>, b: map<Mrid, ScheduledControl>) {
    forall k :: k in a ==> k in b && a[k].control == b[k].control
  }

  /** Swept controls come back as the same resources, perhaps with another interval, and sweep to the same. */
  lemma ControlsAgain(controls: map<Mrid, ScheduledControl>, incoming: seq<ControlResource>, env: Env, env': Env,
                      tracked: set<Href>)
    ensures var inserted := SetControls(controls, incoming, env).0;
            var kept := RetainTracked(inserted, ControlHref, tracked);
            var again := SetControls(kept, incoming, env').0;
            && SameResources(again, inserted) && RetainTracked(again, ControlHref, tracked) == kept
            && (EachHasHref(controls, ControlHref) ==> HeldItems(again, inserted, ControlHref, tracked))
  {
    var inserted := SetControls(controls, incoming, env).0;
    var kept := RetainTracked(inserted, ControlHref, tracked);
    var again := SetControls(kept, incoming, env').0;
    forall id
      ensures id in again ==> id in inserted && again[id].control == inserted[id].control
      ensures id in kept ==> id in again && again[id] == kept[id]
      ensures EachHasHref(controls, ControlHref) && id in inserted && ControlHref(inserted[id]).None? ==> id in again
    {
      SetControlsLatest(controls, incoming, env, id);
      SetControlsLatest(kept, incoming, env', id);
    }
    assert RetainTracked(again, ControlHref, tracked) == kept;
  }

  // The whole model.

  /** The model holds nothing that the other does not hold too. */
  ghost predicate Within(a: ModelState, b: ModelState) {
    && a.dcap == b.dcap && a.time == b.time && a.endDeviceList == b.endDeviceList
    && SubMap(a.fsaLists, b.fsaLists) && SubMap(a.programLists, b.programLists)
    && SubMap(a.controlLists, b.controlLists) && SubMap(a.curveLists, b.curveLists)
    && SubMap(a.endDevices, b.endDevices) && SubMap(a.fsas, b.fsas) && SubMap(a.programs, b.programs)
    && SameResources(a.controls, b.controls) && SubMap(a.curves, b.curves)
  }

  /** What needs a resource in a smaller model needs it in the larger one. */
  lemma MarkedWithin(a: ModelState, b: ModelState, h: Href)
    requires Within(a, b) && Marked(a, h)
    ensures Marked(b, h)
  {
    ProgramsWithin(a, b);
    ControlsWithin(a, b, h);
    CurvesWithin(a, b);
  }

  lemma ControlsWithin(a: ModelState, b: ModelState, h: Href)
    requires Within(a, b) && ControlListHrefs(a) <= ControlListHrefs(b)
    ensures h in ControlHrefs(a) ==> h in ControlHrefs(b)
  {
    if h in ControlHrefs(a) {
      var c :| c in Controls(a) && c.control.href == Some(h);
      var l, id :| l in ControlListHrefs(a) && l in a.controlLists && id in a.controlLists[l].items
                   && id in a.controls && a.controls[id] == c;
      assert b.controls[id] in Controls(b);
    }
  }

  lemma CurvesWithin(a: ModelState, b: ModelState)
    requires Within(a, b) && CurveListHrefs(a) <= CurveListHrefs(b)
    ensures Curves(a) <= Curves(b)
  {
  }

  lemma ProgramsWithin(a: ModelState, b: ModelState)
    requires Within(a, b)
    ensures Devices(a) <= Devices(b) && FsaListHrefs(a) <= FsaListHrefs(b) && Fsas(a) <= Fsas(b)
    ensures ProgramListHrefs(a) <= ProgramListHrefs(b) && Programs(a) <= Programs(b)
    ensures ControlListHrefs(a) <= ControlListHrefs(b) && CurveListHrefs(a) <= CurveListHrefs(b)
  {
  }

  /**
   `again` is what merging into the swept model `once` gives: nothing new, and swept the same; and nothing
   without an href is missing, if the model before had hrefs.
   */
  ghost predicate ComesBack(m: ModelState, merged: ModelState, again: ModelState, tracked: set<Href>) {
    var once := Sweep(merged, tracked);
    && Within(again, merged) && Sweep(again, tracked) == once && again.mupList == once.mupList
    && (AllHrefs(m) ==> Holds(again, merged, tracked))
  }

  lemma SweptComesBack(m: ModelState, tracked: set<Href>)
    ensures ComesBack(m, m, Sweep(m, tracked), tracked)
  {
    SweepTwice(m, tracked);
    SweepHolds(m, tracked);
    if AllHrefs(m) { AllHrefsIsWithHrefs(m); }
  }

  lemma DeviceListAgain(m: ModelState, list: ListResource<EndDeviceResource>, tracked: set<Href>)
    ensures var merged := SetEndDeviceList(m, list);
            var once := Sweep(merged, tracked);
            ComesBack(m, merged, SetEndDeviceList(once, list), tracked)
  {
    var merged := SetEndDeviceList(m, list);
    SweptComesBack(m, tracked);
    SweptComesBack(merged, tracked);
    if list.href.Some? {
      var devices := DevicesWithLfdi(list.items);
      InsertAgain(m.endDevices, devices, DeviceId, DeviceHref, tracked);
      var once := Sweep(merged, tracked);
      var endDevices := InsertAll(once.endDevices, devices, DeviceId);
      assert SetEndDeviceList(once, list) == once.(endDevices := endDevices);
    }
  }

  lemma FsaListAgain(m: ModelState, list: ListResource<FsaResource>, tracked: set<Href>)
    ensures var merged := SetFsaList(m, list);
            var once := Sweep(merged, tracked);
            ComesBack(m, merged, SetFsaList(once, list), tracked)
  {
    var merged := SetFsaList(m, list);
    SweptComesBack(m, tracked);
    SweptComesBack(merged, tracked);
    if list.href.Some? {
      var stored := IDList(list.href.value, Ids(list.items, FsaId), list.pollRate);
      PutListAgain(m.fsaLists, list.href.value, stored, tracked);
      InsertAgain(m.fsas, list.items, FsaId, FsaHref, tracked);
      var once := Sweep(merged, tracked);
      var lists, fsas := once.fsaLists[list.href.value := stored], InsertAll(once.fsas, list.items, FsaId);
      assert SetFsaList(once, list) == once.(fsaLists := lists, fsas := fsas);
    }
  }

  lemma ProgramListAgain(m: ModelState, list: ListResource<ProgramResource>, tracked: set<Href>)
    ensures var merged := SetProgramList(m, list);
            var once := Sweep(merged, tracked);
            ComesBack(m, merged, SetProgramList(once, list), tracked)
  {
    var merged := SetProgramList(m, list);
    SweptComesBack(m, tracked);
    SweptComesBack(merged, tracked);
    if list.href.Some? {
      var stored := IDList(list.href.value, Ids(list.items, ProgramId), list.pollRate);
      PutListAgain(m.programLists, list.href.value, stored, tracked);
      InsertAgain(m.programs, list.items, ProgramId, ProgramHref, tracked);
      var once := Sweep(merged, tracked);
      var lists, programs := once.programLists[list.href.value := stored],
                             InsertAll(once.programs, list.items, ProgramId);
      assert SetProgramList(once, list) == once.(programLists := lists, programs := programs);
    }
  }

  lemma ControlListAgain(m: ModelState, list: ListResource<ControlResource>, env: Env, env': Env, tracked: set<Href>)
    ensures var merged := SetControlList(m, list, env).0;
            var once := Sweep(merged, tracked);
            ComesBack(m, merged, SetControlList(once, list, env').0, tracked)
  {
    var merged := SetControlList(m, list, env).0;
    SweptComesBack(m, tracked);
    SweptComesBack(merged, tracked);
    if list.href.Some? {
      var stored := IDList(list.href.value, Ids(list.items, ControlId), None);
      PutListAgain(m.controlLists, list.href.value, stored, tracked);
      ControlsAgain(m.controls, list.items, env, env', tracked);
      var once := Sweep(merged, tracked);
      var lists, controls := once.controlLists[list.href.value := stored],
                             SetControls(once.controls, list.items, env').0;
      assert SetControlList(once, list, env').0 == once.(controlLists := lists, controls := controls);
    }
  }

  lemma CurveListAgain(m: ModelState, list: ListResource<CurveResource>, tracked: set<Href>)
    ensures var merged := SetCurveList(m, list);
            var once := Sweep(merged, tracked);
            ComesBack(m, merged, SetCurveList(once, list), tracked)
  {
    var merged := SetCurveList(m, list);
    SweptComesBack(m, tracked);
    SweptComesBack(merged, tracked);
    if list.href.Some? {
      var stored := IDList(list.href.value, Ids(list.items, CurveId), None);
      PutListAgain(m.curveLists, list.href.value, stored, tracked);
      InsertAgain(m.curves, list.items, CurveId, CurveHref, tracked);
      var once := Sweep(merged, tracked);
      var lists, curves := once.curveLists[list.href.value := stored], InsertAll(once.curves, list.items, CurveId);
      assert SetCurveList(once, list) == once.(curveLists := lists, curves := curves);
    }
  }

  lemma PutDefaultAgain(stored: map<Href, DefaultControlResource>, href: Href, control: DefaultControlResource,
                        tracked: set<Href>)
    ensures var kept := RetainTracked(stored[href := control], DefaultControlHref, tracked);
            RetainTracked(kept[href := control], DefaultControlHref, tracked) == kept
  {
  }

  lemma DefaultControlAgain(m: ModelState, control: DefaultControlResource, tracked: set<Href>)
    ensures var merged := SetDefaultControl(m, control);
            var once := Sweep(merged, tracked);
            ComesBack(m, merged, SetDefaultControl(once, control), tracked)
  {
    var merged := SetDefaultControl(m, control);
    SweptComesBack(m, tracked);
    SweptComesBack(merged, tracked);
    if control.href.Some? {
      PutDefaultAgain(m.defaultControls, control.href.value, control, tracked);
      var once := Sweep(merged, tracked);
      assert SetDefaultControl(once, control)
          == once.(defaultControls := once.defaultControls[control.href.value := control]);
    }
  }

  lemma DerListAgain(m: ModelState, list: DerListResource, tracked: set<Href>)
    ensures var merged := SetDerList(m, list);
            var once := Sweep(merged, tracked);
            ComesBack(m, merged, SetDerList(once, list), tracked)
  {
    var merged := SetDerList(m, list);
    SweptComesBack(m, tracked);
    SweptComesBack(merged, tracked);
    if list.href.Some? {
      PutListAgain(m.derLists, list.href.value, list, tracked);
      var once := Sweep(merged, tracked);
      var lists := once.derLists[list.href.value := list];
      assert SetDerList(once, list) == once.(derLists := lists);
    }
  }

  /** Merging again after the sweep brings back nothing new, and sweeps to the same model. */
  lemma MergeAgain(m: ModelState, update: Update, env: Env, env': Env, tracked: set<Href>)
    ensures var merged := Merged(m, update, env);
            var once := Sweep(merged, tracked);
            var again := Merged(once, update, env');
            && Within(again, merged)
            && Sweep(again, tracked) == once
            && (AllHrefs(m) ==> Holds(again, merged, tracked))
            && again.mupList == if update.MupListUpdate? then merged.mupList else once.mupList
  {
    var merged := Merged(m, update, env);
    SweptComesBack(m, tracked);
    SweptComesBack(merged, tracked);
    match update
    case EndDeviceListUpdate(list) => DeviceListAgain(m, list, tracked);
    case FsaListUpdate(list) => FsaListAgain(m, list, tracked);
    case ProgramListUpdate(list) => ProgramListAgain(m, list, tracked);
    case DefaultControlUpdate(control) => DefaultControlAgain(m, control, tracked);
    case ControlListUpdate(list) => ControlListAgain(m, list, env, env', tracked);
    case CurveListUpdate(list) => CurveListAgain(m, list, tracked);
    case DerListUpdate(list) => DerListAgain(m, list, tracked);
    case DeviceCapabilityUpdate(dcap) => assert Merged(Sweep(merged, tracked), update, env') == Sweep(merged, tracked);
    case TimeUpdate(time) => assert Merged(Sweep(merged, tracked), update, env') == Sweep(merged, tracked);
    case MupListUpdate(list) => assert Merged(Sweep(merged, tracked), update, env')
                                    == Sweep(merged, tracked).(mupList := Some(list));
  }

  /** The links of the merged model, but the MirrorUsagePointList's rate only if it comes again or was kept. */
  function LinksAskedAgain(update: Update, merged: ModelState, once: ModelState): ResourceLinks {
    DcapLinks(if update.MupListUpdate? then merged else once) + EndDeviceLinks(merged)
  }

  lemma LinksAgain(m: ModelState, update: Update, env: Env, env': Env)
    requires AllHrefs(m)
    ensures var merged, once := Merged(m, update, env), Applied(m, update, env);
            var again := Merged(once, update, env');
            && Links(again) == LinksAskedAgain(update, merged, once)
            && Links(again).Keys == Links(merged).Keys
  {
    var merged, once := Merged(m, update, env), Applied(m, update, env);
    MergeAgain(m, update, env, env', Links(merged).Keys);
    LinksHeld(Merged(once, update, env'), merged, if update.MupListUpdate? then merged else once);
  }

  lemma LinksHeld(again: ModelState, merged: ModelState, rated: ModelState)
    requires Within(again, merged) && Holds(again, merged, Links(merged).Keys)
    requires rated.dcap == again.dcap && rated.time == again.time && rated.endDeviceList == again.endDeviceList
    requires rated.mupList == again.mupList
    ensures Links(again) == DcapLinks(rated) + EndDeviceLinks(merged) && Links(again).Keys == Links(merged).Keys
  {
    EndDevicesHeld(again, merged, Links(merged).Keys);
    SameDcapLinks(again, rated);
    SameDcapKeys(again, merged);
  }

  lemma SameDcapLinks(a: ModelState, b: ModelState)
    requires a.dcap == b.dcap && a.time == b.time && a.endDeviceList == b.endDeviceList && a.mupList == b.mupList
    ensures DcapLinks(a) == DcapLinks(b)
  {
  }

  lemma SameDcapKeys(a: ModelState, b: ModelState)
    requires a.dcap == b.dcap
    ensures DcapLinks(a).Keys == DcapLinks(b).Keys
  {
    if a.dcap.Some? {
      SameEntryKeys(a.dcap.value, a.time.pollRate, PollRateOf(a.endDeviceList), MupListPollRate(a),
                    b.time.pollRate, PollRateOf(b.endDeviceList), MupListPollRate(b));
    }
  }

  lemma SameEntryKeys(dcap: DeviceCapability, a: Option<nat>, b: Option<nat>, c: Option<nat>, x: Option<nat>,
                      y: Option<nat>, z: Option<nat>)
    ensures EntryLinks(dcap, a, b, c).Keys == EntryLinks(dcap, x, y, z).Keys
  {
  }

  // What is answered again.

  function Last(mentions: seq<ControlResource>): ControlResource
    requires mentions != []
  {
    mentions[|mentions| - 1]
  }

  lemma MentionedIn(incoming: seq<ControlResource>, i: nat)
    requires i < |incoming|
    ensures Mentions(incoming, incoming[i].mrid) != []
  {
    if i < |incoming| - 1 {
      MentionedIn(incoming[..|incoming| - 1], i);
    }
  }

  /**
   The answer to item `i` of a control list that is received again: to its status if it differs from that of
   the mention before, or of the last mention if the control was kept, and to its arrival if it was not.
   */
  function AnswerAgain(incoming: seq<ControlResource>, tracked: set<Href>, env: Env, i: nat): seq<Event>
    requires i < |incoming|
  {
    MentionedIn(incoming, i);
    var earlier, all := Mentions(incoming[..i], incoming[i].mrid), Mentions(incoming, incoming[i].mrid);
    if earlier != [] then StatusChangeEvents(Last(earlier).currentStatus, incoming[i])
    else if Tracked(Last(all).href, tracked) then StatusChangeEvents(Last(all).currentStatus, incoming[i])
    else ArrivalEvents(Realise(incoming[i], env.draw(i)), env.now)
  }

  predicate Silent(incoming: seq<ControlResource>, tracked: set<Href>, env: Env, i: nat)
    requires i < |incoming|
  {
    AnswerAgain(incoming, tracked, env, i) == []
  }

  lemma BothEmpty(a: seq<Event>, b: seq<Event>)
    ensures a + b == [] <==> a == [] && b == []
  {
  }

  function Flattened(parts: seq<seq<Event>>): seq<Event> {
    if parts == [] then [] else Flattened(parts[..|parts| - 1]) + parts[|parts| - 1]
  }

  lemma {:induction false} FlattenedEmpty(parts: seq<seq<Event>>)
    ensures Flattened(parts) == [] <==> forall i :: 0 <= i < |parts| ==> parts[i] == []
  {
    if parts != [] {
      FlattenedEmpty(parts[..|parts| - 1]);
      BothEmpty(Flattened(parts[..|parts| - 1]), parts[|parts| - 1]);
    }
  }

  function EachAnswer(incoming: seq<ControlResource>, tracked: set<Href>, env: Env, n: nat): (parts: seq<seq<Event>>)
    requires n <= |incoming|
    ensures |parts| == n && forall i :: 0 <= i < n ==> parts[i] == AnswerAgain(incoming, tracked, env, i)
  {
    seq(n, i requires 0 <= i < n => AnswerAgain(incoming, tracked, env, i))
  }

  function AnswersAgain(incoming: seq<ControlResource>, tracked: set<Href>, env: Env, n: nat): seq<Event>
    requires n <= |incoming|
  {
    Flattened(EachAnswer(incoming, tracked, env, n))
  }

  lemma OneMoreAnswered(incoming: seq<ControlResource>, tracked: set<Href>, env: Env, n: nat)
    requires n < |incoming|
    ensures AnswersAgain(incoming, tracked, env, n + 1)
         == AnswersAgain(incoming, tracked, env, n) + AnswerAgain(incoming, tracked, env, n)
  {
    assert EachAnswer(incoming, tracked, env, n + 1)[..n] == EachAnswer(incoming, tracked, env, n);
  }

  lemma OneMoreSet(controls: map<Mrid, ScheduledControl>, incoming: seq<ControlResource>, env: Env, n: nat)
    requires n < |incoming|
    ensures var (before, events) := SetControls(controls, incoming[..n], env);
            SetControls(controls, incoming[..n + 1], env).1
            == events + SetControl(before, incoming[n], env.draw(n), env.now).1
  {
    assert incoming[..n + 1][..n] == incoming[..n];
  }

  lemma {:induction false} SetControlsAgain(
    controls: map<Mrid, ScheduledControl>, incoming: seq<ControlResource>, env: Env, env': Env, tracked: set<Href>,
    n: nat)
    requires n <= |incoming|
    ensures var kept := RetainTracked(SetControls(controls, incoming, env).0, ControlHref, tracked);
            SetControls(kept, incoming[..n], env').1 == AnswersAgain(incoming, tracked, env', n)
  {
    var kept := RetainTracked(SetControls(controls, incoming, env).0, ControlHref, tracked);
    if n == 0 {
      assert incoming[..0] == [];
    } else {
      SetControlsAgain(controls, incoming, env, env', tracked, n - 1);
      OneMoreAnswer(controls, incoming, env, env', tracked, n - 1);
      OneMoreAnswered(incoming, tracked, env', n - 1);
      OneMoreSet(kept, incoming, env', n - 1);
    }
  }

  lemma OneMoreAnswer(controls: map<Mrid, ScheduledControl>, incoming: seq<ControlResource>, env: Env, env': Env,
                      tracked: set<Href>, i: nat)
    requires i < |incoming|
    ensures var kept := RetainTracked(SetControls(controls, incoming, env).0, ControlHref, tracked);
            var before := SetControls(kept, incoming[..i], env').0;
            SetControl(before, incoming[i], env'.draw(i), env'.now).1 == AnswerAgain(incoming, tracked, env', i)
  {
    var id := incoming[i].mrid;
    var kept := RetainTracked(SetControls(controls, incoming, env).0, ControlHref, tracked);
    MentionedIn(incoming, i);
    SetControlsLatest(controls, incoming, env, id);
    SetControlsLatest(kept, incoming[..i], env', id);
  }

  ghost predicate AllSilent(incoming: seq<ControlResource>, tracked: set<Href>, env: Env, n: nat)
    requires n <= |incoming|
  {
    forall i :: 0 <= i < n ==> Silent(incoming, tracked, env, i)
  }

  lemma AnswersAreEmpty(incoming: seq<ControlResource>, tracked: set<Href>, env: Env, n: nat)
    requires n <= |incoming|
    ensures AnswersAgain(incoming, tracked, env, n) == [] <==> AllSilent(incoming, tracked, env, n)
  {
    var parts := EachAnswer(incoming, tracked, env, n);
    FlattenedEmpty(parts);
    forall i | 0 <= i < n ensures parts[i] == [] <==> Silent(incoming, tracked, env, i) {}
  }

  /** Received again, no item of a control list has anything to answer. */
  ghost predicate NothingToAnswer(update: Update, tracked: set<Href>, env: Env) {
    update.ControlListUpdate? && update.controls.href.Some? ==>
      AllSilent(update.controls.items, tracked, env, |update.controls.items|)
  }

  /**
   For every control list, whether linked or not and however often it mentions a control: the
   answers it gets again.
   */
  lemma ControlsAnsweredAgain(m: ModelState, list: ListResource<ControlResource>, env: Env, env': Env,
                              tracked: set<Href>)
    requires list.href.Some?
    ensures var update := ControlListUpdate(list);
            ControlEvents(Sweep(Merged(m, update, env), tracked), update, env')
            == AnswersAgain(list.items, tracked, env', |list.items|)
  {
    var update := ControlListUpdate(list);
    var once := Sweep(Merged(m, update, env), tracked);
    forall i | 0 <= i < |list.items| ensures Mentions(list.items, list.items[i].mrid) != [] {
      MentionedIn(list.items, i);
    }
    SetControlsAgain(m.controls, list.items, env, env', tracked, |list.items|);
    assert list.items[..|list.items|] == list.items;
    assert once.controls == RetainTracked(SetControls(m.controls, list.items, env).0, ControlHref, tracked);
  }

  lemma DiffIsEmpty(prior: ResourceLinks, post: ResourceLinks)
    ensures LinkEventsBetween(prior, post) == [] <==> prior == post
  {
    ReplayTelescopes(prior, post, prior);
    RefreshChangesNothing(prior);
  }

  lemma LinksWithin(a: ModelState, b: ModelState)
    requires Within(a, b)
    ensures Links(a).Keys <= Links(b).Keys
  {
    forall h | h in Links(a) ensures h in Links(b) {
      LinksAreMarked(a, h);
      MarkedWithin(a, b, h);
      LinksAreMarked(b, h);
    }
  }

  lemma SilentExactly(m: ModelState, update: Update, env: Env, env': Env)
    ensures var merged, once := Merged(m, update, env), Applied(m, update, env);
            UpdateEvents(once, update, env') == []
            <==> Links(Merged(once, update, env')) == Links(once)
                 && NothingToAnswer(update, Links(merged).Keys, env')
  {
    var once := Applied(m, update, env);
    var links, answers := LinkEventsBetween(Links(once), Links(Merged(once, update, env'))),
                          ControlEvents(once, update, env');
    assert links + answers == [] <==> links == [] && answers == [];
    DiffIsEmpty(Links(once), Links(Merged(once, update, env')));
    AnsweredExactly(m, update, env, env', Links(Merged(m, update, env)).Keys);
  }

  lemma SweptAgain(merged: ModelState, once: ModelState, again: ModelState)
    requires Within(again, merged) && Sweep(again, Links(merged).Keys) == once
    ensures var tracked := Links(again).Keys;
            && tracked <= Links(merged).Keys
            && Sweep(again, tracked) == Sweep(once, tracked)
            && (Sweep(again, tracked) == once <==> StoredWithin(once, tracked))
  {
    LinksWithin(again, merged);
    SweepNarrower(again, Links(merged).Keys, Links(again).Keys);
    SweepKeepsAllExactly(once, Links(again).Keys);
  }

  /**
   For every model, also a restored one that stores items without an href: what receiving a resource again leaves,
   that it is the same model exactly if nothing stored has lost its link, and when nothing is announced.
   */
  lemma ReceivedAgain(m: ModelState, update: Update, env: Env, env': Env)
    ensures var merged, once := Merged(m, update, env), Applied(m, update, env);
            var links := Links(Merged(once, update, env'));
            && links.Keys <= Links(merged).Keys
            && Applied(once, update, env') == Sweep(once, links.Keys)
            && (Applied(once, update, env') == once <==> StoredWithin(once, links.Keys))
            && (UpdateEvents(once, update, env') == []
                <==> links == Links(once) && NothingToAnswer(update, Links(merged).Keys, env'))
  {
    var merged, once := Merged(m, update, env), Applied(m, update, env);
    var again, tracked := Merged(once, update, env'), Links(merged).Keys;
    MergeAgain(m, update, env, env', tracked);
    SweptAgain(merged, once, again);
    SilentExactly(m, update, env, env');
  }

  /**
   Receiving any resource again, at any time, with or without hrefs, never changes a model whose stored items
   have hrefs, as after every update. It announces nothing exactly when the first sweep took back no link that
   comes again, and no control has anything to answer.
   */
  lemma UpdateIsIdempotent(m: ModelState, update: Update, env: Env, env': Env)
    requires AllHrefs(m)
    ensures var merged, once := Merged(m, update, env), Applied(m, update, env);
            && Applied(once, update, env') == once
            && (UpdateEvents(once, update, env') == [] <==>
                && Links(once) == LinksAskedAgain(update, merged, once)
                && NothingToAnswer(update, Links(merged).Keys, env'))
  {
    var merged, once := Merged(m, update, env), Applied(m, update, env);
    var again, tracked := Merged(once, update, env'), Links(merged).Keys;
    MergeAgain(m, update, env, env', tracked);
    LinksAgain(m, update, env, env');
    SilentExactly(m, update, env, env');
  }

  /** With hrefs, a link is taken back only if a MirrorUsagePointList gives a rate that its own sweep loses. */
  lemma OnlyRateIsTakenBack(m: ModelState, update: Update, env: Env)
    requires AllHrefs(m) && UpdateHasHrefs(update)
    ensures var merged, once := Merged(m, update, env), Applied(m, update, env);
            Links(once) == LinksAskedAgain(update, merged, once)
            <==> (update.MupListUpdate? ==> MupRateSurvives(merged))
  {
    var merged := Merged(m, update, env);
    MergeKeepsHrefs(m, update, env);
    AllHrefsIsWithHrefs(merged);
    EndDevicesSwept(merged, Links(merged).Keys);
    SweepKeepsLinks(merged);
  }

  lemma AnsweredExactly(m: ModelState, update: Update, env: Env, env': Env, tracked: set<Href>)
    ensures ControlEvents(Sweep(Merged(m, update, env), tracked), update, env') == []
       <==> NothingToAnswer(update, tracked, env')
  {
    if update.ControlListUpdate? && update.controls.href.Some? {
      ControlsAnsweredAgain(m, update.controls, env, env', tracked);
      AnswersAreEmpty(update.controls.items, tracked, env', |update.controls.items|);
    }
  }

  // Lists that mention each control once.

  predicate Distinct<K(==)>(ids: seq<K>) {
    forall i, j :: 0 <= i < j < |ids| ==> ids[i] != ids[j]
  }

  lemma {:induction false} OnlyMention(incoming: seq<ControlResource>, i: nat, n: nat)
    requires i < |incoming| && n <= |incoming| && Distinct(Ids(incoming, ControlId))
    ensures Mentions(incoming[..n], incoming[i].mrid) == if i < n then [incoming[i]] else []
  {
    if n > 0 {
      assert incoming[..n][..n - 1] == incoming[..n - 1];
      OnlyMention(incoming, i, n - 1);
      var ids := Ids(incoming, ControlId);
      assert i < n - 1 ==> ids[i] != ids[n - 1];
      assert n - 1 < i ==> ids[n - 1] != ids[i];
    }
  }

  /** Then an item is answered again exactly if its control was not kept and its arrival asks for a response. */
  lemma DistinctAnsweredAgain(incoming: seq<ControlResource>, tracked: set<Href>, env: Env, i: nat)
    requires i < |incoming| && Distinct(Ids(incoming, ControlId))
    ensures Silent(incoming, tracked, env, i)
       <==> Tracked(incoming[i].href, tracked) || ArrivalEvents(Realise(incoming[i], env.draw(i)), env.now) == []
  {
    OnlyMention(incoming, i, i);
    OnlyMention(incoming, i, |incoming|);
    assert incoming[..|incoming|] == incoming;
  }

  /** A list that is linked with all its items, each mentioned once, is quiet; so is every other resource if linked. */
  lemma LinkedUpdateIsQuiet(m: ModelState, update: Update, env: Env, env': Env)
    requires AllHrefs(m) && UpdateHasHrefs(update)
    requires var tracked := Links(Merged(m, update, env)).Keys;
             match update
             case ControlListUpdate(list) =>
               Distinct(Ids(list.items, ControlId)) && forall i :: 0 <= i < |list.items|
                                                                   ==> Tracked(list.items[i].href, tracked)
             case MupListUpdate(list) => Tracked(list.href, tracked)
             case _ => true
    ensures var once := Applied(m, update, env);
            Applied(once, update, env') == once && UpdateEvents(once, update, env') == []
  {
    UpdateIsIdempotent(m, update, env, env');
    OnlyRateIsTakenBack(m, update, env);
    if update.ControlListUpdate? {
      forall i | 0 <= i < |update.controls.items|
        ensures Silent(update.controls.items, Links(Merged(m, update, env)).Keys, env', i)
      {
        DistinctAnsweredAgain(update.controls.items, Links(Merged(m, update, env)).Keys, env', i);
      }
    }
  }
}
