/** What one received resource leaves stored, said entry by entry and without the functions that merge it. */
module UpdateEffects {
  import opened Wrappers
  import opened ResourceTypes
  import opened Reachability
  import opened ModelUpdates

  function MridOfFsa(f: FsaResource): Option<Mrid> { Some(f.mrid) }

  function MridOfProgram(p: ProgramResource): Option<Mrid> { Some(p.mrid) }

  function MridOfCurve(c: CurveResource): Option<Mrid> { Some(c.mrid) }

  function MridOfControl(c: ControlResource): Option<Mrid> { Some(c.mrid) }

  function LfdiOf(d: EndDeviceResource): Option<Lfdi> { d.lfdi }

  /** The ids of the items that have one, in order. */
  function IdsOf<K, V>(items: seq<V>, idOf: V -> Option<K>): seq<K> {
    if items == [] then []
    else (match idOf(items[0]) case None => [] case Some(id) => [id]) + IdsOf(items[1..], idOf)
  }

  predicate IsLastWith<K(==), V>(items: seq<V>, idOf: V -> Option<K>, id: K, i: int) {
    && 0 <= i < |items| && idOf(items[i]) == Some(id)
    && forall j :: i < j < |items| ==> idOf(items[j]) != Some(id)
  }

  predicate IsFirstWith<K(==), V>(items: seq<V>, idOf: V -> Option<K>, id: K, i: int) {
    && 0 <= i < |items| && idOf(items[i]) == Some(id)
    && forall j :: 0 <= j < i ==> idOf(items[j]) != Some(id)
  }

  predicate Mentioned<K(==), V>(items: seq<V>, idOf: V -> Option<K>, id: K) {
    exists i :: 0 <= i < |items| && idOf(items[i]) == Some(id)
  }

  /** The last item with an id is stored under it, and every other entry is the old one. */
  ghost predicate Inserted<K(!new), V(!new)>(before: map<K, V>, items: seq<V>, idOf: V -> Option<K>, after: map<K, V>) {
    && (forall id, i :: IsLastWith(items, idOf, id, i) ==> id in after && after[id] == items[i])
    && (forall id :: !Mentioned(items, idOf, id)
                     ==> (id in after <==> id in before) && (id in before ==> after[id] == before[id]))
  }

  /** A control keeps its interval; a new one gets that of its first mention, shifted as drawn. */
  ghost predicate IntervalChosen(before: map<Mrid, ScheduledControl>, items: seq<ControlResource>, env: Env,
                                 after: map<Mrid, ScheduledControl>) {
    && (forall id :: id in before ==> id in after && after[id].startTime == before[id].startTime
                                      && after[id].duration == before[id].duration)
    && (forall id, i :: id !in before && IsFirstWith(items, MridOfControl, id, i) ==>
                          && id in after && after[id].startTime == items[i].intervalStart + env.draw(i).startShift
                          && var shifted := items[i].intervalDuration + env.draw(i).durationShift;
                          after[id].duration == if shifted < 0 then 0 else shifted % 0x1_0000_0000)
  }

  ghost predicate ControlsInserted(before: map<Mrid, ScheduledControl>, items: seq<ControlResource>, env: Env,
                                   after: map<Mrid, ScheduledControl>) {
    && (forall id, i :: IsLastWith(items, MridOfControl, id, i) ==> id in after && after[id].control == items[i])
    && (forall id :: !Mentioned(items, MridOfControl, id)
                     ==> (id in after <==> id in before) && (id in before ==> after[id] == before[id]))
    && IntervalChosen(before, items, env, after)
  }

  /** A list without an href is ignored; another is stored at its href, with the ids of its items and this rate. */
  predicate ListStored<K(==), V>(before: map<Href, IDList<K>>, list: ListResource<V>, idOf: V -> Option<K>,
                                 rate: Option<nat>, after: map<Href, IDList<K>>) {
    match list.href
    case None => after == before
    case Some(href) => after == before[href := IDList(href, IdsOf(list.items, idOf), rate)]
  }

  function ItemsIn<V>(list: ListResource<V>): seq<V> {
    if list.href.Some? then list.items else []
  }

  /** `whole` is the model with the received resource put in, before anything is swept. */
  ghost predicate Received(m: ModelState, update: Update, env: Env, whole: ModelState) {
    match update
    case DeviceCapabilityUpdate(dcap) => whole == m.(dcap := Some(dcap))
    case TimeUpdate(time) => whole == m.(time := time)
    case MupListUpdate(list) => whole == m.(mupList := Some(list))
    case DerListUpdate(list) =>
      whole == (match list.href case None => m case Some(href) => m.(derLists := m.derLists[href := list]))
    case DefaultControlUpdate(control) =>
      whole == (match control.href
                case None => m
                case Some(href) => m.(defaultControls := m.defaultControls[href := control]))
    case EndDeviceListUpdate(list) =>
      && whole == m.(endDeviceList := whole.endDeviceList, endDevices := whole.endDevices)
      && whole.endDeviceList == (match list.href
                                 case None => m.endDeviceList
                                 case Some(href) => Some(IDList(href, IdsOf(list.items, LfdiOf), list.pollRate)))
      && Inserted(m.endDevices, ItemsIn(list), LfdiOf, whole.endDevices)
    case FsaListUpdate(list) =>
      && whole == m.(fsaLists := whole.fsaLists, fsas := whole.fsas)
      && ListStored(m.fsaLists, list, MridOfFsa, list.pollRate, whole.fsaLists)
      && Inserted(m.fsas, ItemsIn(list), MridOfFsa, whole.fsas)
    case ProgramListUpdate(list) =>
      && whole == m.(programLists := whole.programLists, programs := whole.programs)
      && ListStored(m.programLists, list, MridOfProgram, list.pollRate, whole.programLists)
      && Inserted(m.programs, ItemsIn(list), MridOfProgram, whole.programs)
    case CurveListUpdate(list) =>
      && whole == m.(curveLists := whole.curveLists, curves := whole.curves)
      && ListStored(m.curveLists, list, MridOfCurve, None, whole.curveLists)
      && Inserted(m.curves, ItemsIn(list), MridOfCurve, whole.curves)
    case ControlListUpdate(list) =>
      && whole == m.(controlLists := whole.controlLists, controls := whole.controls)
      && ListStored(m.controlLists, list, MridOfControl, None, whole.controlLists)
      && ControlsInserted(m.controls, ItemsIn(list), env, whole.controls)
  }

  // Items.

  ghost predicate SameIds<K(!new), V(!new)>(f: V -> K, g: V -> Option<K>) {
    forall x :: g(x) == Some(f(x))
  }

  lemma {:induction false} IdsAreListed<K(!new), V(!new)>(items: seq<V>, f: V -> K, g: V -> Option<K>)
    requires SameIds(f, g)
    ensures Ids(items, f) == IdsOf(items, g)
  {
    if items != [] {
      IdsAreListed(items[1..], f, g);
      assert Ids(items, f) == [f(items[0])] + Ids(items[1..], f);
    }
  }

  /** One more item: it is the last with its id, and leaves the others as they were. */
  lemma LastAfter<K(!new), V(!new)>(items: seq<V>, idOf: V -> Option<K>, id: K, i: int)
    requires items != []
    ensures var n := |items| - 1;
            && (IsLastWith(items, idOf, id, i) <==> if idOf(items[n]) == Some(id) then i == n
                                                    else IsLastWith(items[..n], idOf, id, i))
            && (Mentioned(items, idOf, id) <==> idOf(items[n]) == Some(id) || Mentioned(items[..n], idOf, id))
  {
    var n := |items| - 1;
    var head := items[..n];
    if IsLastWith(head, idOf, id, i) && idOf(items[n]) != Some(id) {
      forall j | i < j < |items| ensures idOf(items[j]) != Some(id) {
        if j < n { assert items[j] == head[j]; }
      }
    }
    if IsLastWith(items, idOf, id, i) && idOf(items[n]) != Some(id) {
      assert head[i] == items[i];
      forall j | i < j < n ensures idOf(head[j]) != Some(id) { assert items[j] == head[j]; }
    }
    if k :| 0 <= k < |items| && idOf(items[k]) == Some(id) {
      if k < n { assert head[k] == items[k]; }
    }
    if k :| 0 <= k < n && idOf(head[k]) == Some(id) { assert items[k] == head[k]; }
  }

  lemma {:induction false} AllInserted<K(!new), V(!new)>(stored: map<K, V>, items: seq<V>, f: V -> K,
                                                         g: V -> Option<K>)
    requires SameIds(f, g)
    ensures Inserted(stored, items, g, InsertAll(stored, items, f))
  {
    if items != [] {
      var n := |items| - 1;
      AllInserted(stored, items[..n], f, g);
      var before, after := InsertAll(stored, items[..n], f), InsertAll(stored, items, f);
      assert after == before[f(items[n]) := items[n]] && g(items[n]) == Some(f(items[n]));
      forall id, i | IsLastWith(items, g, id, i) ensures id in after && after[id] == items[i] {
        LastAfter(items, g, id, i);
      }
      forall id | !Mentioned(items, g, id)
        ensures (id in after <==> id in stored) && (id in stored ==> after[id] == stored[id])
      {
        LastAfter(items, g, id, 0);
      }
    }
  }

  // Devices without an LFDI are as if they had not been received.

  lemma {:induction false} DevicesListed(items: seq<EndDeviceResource>, a: seq<EndDeviceResource>)
    ensures IdsOf(a + items, LfdiOf) == IdsOf(a, LfdiOf) + IdsOf(items, LfdiOf)
    decreases |a|
  {
    if a == [] {
      assert a + items == items;
    } else {
      assert (a + items)[1..] == a[1..] + items;
      DevicesListed(items, a[1..]);
    }
  }

  lemma {:induction false} DeviceIdsAreListed(items: seq<EndDeviceResource>)
    ensures Ids(DevicesWithLfdi(items), DeviceId) == IdsOf(items, LfdiOf)
  {
    if items != [] {
      var n := |items| - 1;
      DeviceIdsAreListed(items[..n]);
      DevicesListed([items[n]], items[..n]);
      assert items == items[..n] + [items[n]] && [items[n]][1..] == [];
      var kept := DevicesWithLfdi(items[..n]);
      if items[n].lfdi.Some? {
        assert Ids(kept + [items[n]], DeviceId) == Ids(kept, DeviceId) + [items[n].lfdi.value];
      }
    }
  }

  lemma OneMoreDevice(stored: map<Lfdi, EndDeviceResource>, items: seq<EndDeviceResource>)
    requires items != []
    ensures var n := |items| - 1;
            var before := InsertAll(stored, DevicesWithLfdi(items[..n]), DeviceId);
            InsertAll(stored, DevicesWithLfdi(items), DeviceId)
            == if items[n].lfdi.Some? then before[items[n].lfdi.value := items[n]] else before
  {
    var n := |items| - 1;
    var kept := DevicesWithLfdi(items[..n]);
    if items[n].lfdi.Some? {
      assert (kept + [items[n]])[..|kept|] == kept;
    } else {
      assert kept + [] == kept;
    }
  }

  lemma {:induction false} DevicesInserted(stored: map<Lfdi, EndDeviceResource>, items: seq<EndDeviceResource>)
    ensures Inserted(stored, items, LfdiOf, InsertAll(stored, DevicesWithLfdi(items), DeviceId))
  {
    if items != [] {
      var n := |items| - 1;
      DevicesInserted(stored, items[..n]);
      var kept := DevicesWithLfdi(items[..n]);
      var before, after := InsertAll(stored, kept, DeviceId), InsertAll(stored, DevicesWithLfdi(items), DeviceId);
      OneMoreDevice(stored, items);
      forall id, i | IsLastWith(items, LfdiOf, id, i) ensures id in after && after[id] == items[i] {
        LastAfter(items, LfdiOf, id, i);
      }
      forall id | !Mentioned(items, LfdiOf, id)
        ensures (id in after <==> id in stored) && (id in stored ==> after[id] == stored[id])
      {
        LastAfter(items, LfdiOf, id, 0);
      }
    }
  }

  // Controls.

  lemma FirstAfter<K(!new), V(!new)>(items: seq<V>, idOf: V -> Option<K>, id: K, i: int)
    requires items != [] && IsFirstWith(items, idOf, id, i)
    ensures var n := |items| - 1;
            if i < n then IsFirstWith(items[..n], idOf, id, i)
            else !Mentioned(items[..n], idOf, id) && idOf(items[n]) == Some(id)
  {
    var head := items[..|items| - 1];
    forall j | 0 <= j < |head| ensures head[j] == items[j] {}
  }

  lemma {:induction false} ControlsAreInserted(stored: map<Mrid, ScheduledControl>, items: seq<ControlResource>,
                                               env: Env)
    ensures ControlsInserted(stored, items, env, SetControls(stored, items, env).0)
  {
    if items != [] {
      var n := |items| - 1;
      ControlsAreInserted(stored, items[..n], env);
      var before, after := SetControls(stored, items[..n], env).0, SetControls(stored, items, env).0;
      assert after == SetControl(before, items[n], env.draw(n), env.now).0;
      forall id, i | IsLastWith(items, MridOfControl, id, i) ensures id in after && after[id].control == items[i] {
        LastAfter(items, MridOfControl, id, i);
      }
      forall id | !Mentioned(items, MridOfControl, id)
        ensures (id in after <==> id in stored) && (id in stored ==> after[id] == stored[id])
      {
        LastAfter(items, MridOfControl, id, 0);
      }
      IntervalsAreChosen(stored, items, env, before, after);
    }
  }

  lemma IntervalsAreChosen(
    stored: map<Mrid, ScheduledControl>, items: seq<ControlResource>, env: Env, before: map<Mrid, ScheduledControl>,
    after: map<Mrid, ScheduledControl>)
    requires items != []
    requires var n := |items| - 1;
             && after == SetControl(before, items[n], env.draw(n), env.now).0
             && ControlsInserted(stored, items[..n], env, before)
    ensures IntervalChosen(stored, items, env, after)
  {
    var n := |items| - 1;
    forall id, i | id !in stored && IsFirstWith(items, MridOfControl, id, i)
      ensures && id in after && after[id].startTime == items[i].intervalStart + env.draw(i).startShift
              && var shifted := items[i].intervalDuration + env.draw(i).durationShift;
              after[id].duration == if shifted < 0 then 0 else shifted % 0x1_0000_0000
    {
      FirstAfter(items, MridOfControl, id, i);
    }
  }

  // The whole model.

  lemma ListedIds<K(!new), V(!new)>(before: map<Href, IDList<K>>, list: ListResource<V>, f: V -> K,
                                    g: V -> Option<K>, rate: Option<nat>)
    requires SameIds(f, g) && list.href.Some?
    ensures ListStored(before, list, g, rate,
                       before[list.href.value := IDList(list.href.value, Ids(list.items, f), rate)])
  {
    IdsAreListed(list.items, f, g);
  }

  lemma NothingInserted<K(!new), V(!new)>(stored: map<K, V>, idOf: V -> Option<K>)
    ensures Inserted(stored, [], idOf, stored)
  {
  }

  lemma MergeReceives(m: ModelState, update: Update, env: Env)
    ensures Received(m, update, env, Merged(m, update, env))
  {
    match update
    case EndDeviceListUpdate(list) =>
      DeviceIdsAreListed(list.items);
      DevicesInserted(m.endDevices, list.items);
      NothingInserted(m.endDevices, LfdiOf);
    case FsaListUpdate(list) =>
      AllInserted(m.fsas, list.items, FsaId, MridOfFsa);
      NothingInserted(m.fsas, MridOfFsa);
      if list.href.Some? { ListedIds(m.fsaLists, list, FsaId, MridOfFsa, list.pollRate); }
    case ProgramListUpdate(list) =>
      AllInserted(m.programs, list.items, ProgramId, MridOfProgram);
      NothingInserted(m.programs, MridOfProgram);
      if list.href.Some? { ListedIds(m.programLists, list, ProgramId, MridOfProgram, list.pollRate); }
    case CurveListUpdate(list) =>
      AllInserted(m.curves, list.items, CurveId, MridOfCurve);
      NothingInserted(m.curves, MridOfCurve);
      if list.href.Some? { ListedIds(m.curveLists, list, CurveId, MridOfCurve, None); }
    case ControlListUpdate(list) =>
      ControlListReceives(m, list, env);
    case _ =>
  }

  lemma ControlListReceives(m: ModelState, list: ListResource<ControlResource>, env: Env)
    ensures Received(m, ControlListUpdate(list), env, SetControlList(m, list, env).0)
  {
    ControlsAreInserted(m.controls, ItemsIn(list), env);
    if list.href.Some? { ListedIds(m.controlLists, list, ControlId, MridOfControl, None); }
  }

  /**
   After an update the model is the one with the received resource put in, less exactly what is not marked in it:
   lists at their hrefs with the ids and the rate received, the last item of each id, and everything else as before.
   */
  lemma UpdateStores(m: ModelState, update: Update, env: Env) returns (whole: ModelState)
    ensures Received(m, update, env, whole) && SweptTo(whole, Applied(m, update, env))
  {
    whole := Merged(m, update, env);
    MergeReceives(m, update, env);
    SweepKeepsExactlyMarked(whole);
  }
}
