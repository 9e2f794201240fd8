/**
 What the sweep keeps.

 A sweep driven by the model's own links changes the links exactly as much as forgetting the
 items that carry no href does (apart from the poll rate of the MirrorUsagePointList, which the
 links borrow from a resource the sweep itself may drop). When every item has an href, nothing changes.
 */
module SweepCorrectness {
  import opened Wrappers
  import opened ResourceTypes
  import opened ResourceGraph

  // Which hrefs a list contributes.

  lemma {:induction false} ItemsLinksKeys<T(!new)>(
    itemKind: ResourceKind, pollRate: Option<nat>, items: seq<T>,
    hrefOf: T -> Option<Href>, itemLinks: T -> ResourceLinks, h: Href)
    ensures h in ItemsLinks(itemKind, pollRate, items, hrefOf, itemLinks)
       <==> exists x :: x in items && (hrefOf(x) == Some(h) || h in itemLinks(x))
  {
    if items != [] {
      ItemsLinksKeys(itemKind, pollRate, items[1..], hrefOf, itemLinks, h);
      assert items == [items[0]] + items[1..];
    }
  }

  lemma ListLinksKeys<T(!new)>(
    href: Href, kind: ResourceKind, itemKind: ResourceKind, pollRate: Option<nat>, items: seq<T>,
    hrefOf: T -> Option<Href>, itemLinks: T -> ResourceLinks, h: Href)
    ensures h in ListLinks(href, kind, itemKind, pollRate, items, hrefOf, itemLinks)
       <==> h == href || exists x :: x in items && (hrefOf(x) == Some(h) || h in itemLinks(x))
  {
    ItemsLinksKeys(itemKind, pollRate, items, hrefOf, itemLinks, h);
  }

  lemma {:induction false} LookupContains<K, V>(ids: seq<K>, items: map<K, V>, x: V)
    ensures x in Lookup(ids, items) <==> exists id :: id in ids && id in items && items[id] == x
  {
    if ids != [] {
      LookupContains(ids[1..], items, x);
      assert ids == [ids[0]] + ids[1..];
    }
  }

  /** Items that agree on their own hrefs and on what hangs below them contribute the same. */
  lemma {:induction false} FoundAlike<K, V>(
    itemKind: ResourceKind, pollRate: Option<nat>, ids: seq<K>, a: map<K, V>, b: map<K, V>,
    hrefOf: V -> Option<Href>, f: V -> ResourceLinks, g: V -> ResourceLinks)
    requires forall id :: id in ids ==> (id in a <==> id in b)
    requires forall id :: id in ids && id in a ==> hrefOf(a[id]) == hrefOf(b[id]) && f(a[id]) == g(b[id])
    ensures ItemsLinks(itemKind, pollRate, Lookup(ids, a), hrefOf, f)
         == ItemsLinks(itemKind, pollRate, Lookup(ids, b), hrefOf, g)
  {
    if ids != [] {
      FoundAlike(itemKind, pollRate, ids[1..], a, b, hrefOf, f, g);
      if ids[0] in a {
        assert Lookup(ids, a)[1..] == Lookup(ids[1..], a) && Lookup(ids, b)[1..] == Lookup(ids[1..], b);
      }
    }
  }

  // Forgetting the items without an href.

  function DropHrefless<K, V>(m: map<K, V>, hrefOf: V -> Option<Href>): map<K, V> {
    map k | k in m && hrefOf(m[k]).Some? :: m[k]
  }

  function WithHrefs(m: ModelState): ModelState {
    m.(
    endDevices := DropHrefless(m.endDevices, DeviceHref),
    fsas := DropHrefless(m.fsas, FsaHref),
    programs := DropHrefless(m.programs, ProgramHref),
    controls := DropHrefless(m.controls, ControlHref),
    curves := DropHrefless(m.curves, CurveHref)
    )
  }

  // Parts of a model.

  /** Of the items in `whole`, `part` has those that are tracked or have no href, and no others. */
  ghost predicate HeldItems<K(!new), V>(part: map<K, V>, whole: map<K, V>, hrefOf: V -> Option<Href>,
                                        tracked: set<Href>) {
    && (forall k :: k in part ==> k in whole && hrefOf(part[k]) == hrefOf(whole[k]))
    && (forall k :: k in whole && (hrefOf(whole[k]).None? || Tracked(hrefOf(whole[k]), tracked)) ==> k in part)
  }

  ghost predicate SubMap<K(!new), V>(a: map<K, V>, b: map<K, V>) {
    forall k :: k in a ==> k in b && a[k] == b[k]
  }

  /** A part that holds everything tracked; controls may have another interval. */
  ghost predicate Holds(part: ModelState, whole: ModelState, tracked: set<Href>) {
    && part.endDeviceList == whole.endDeviceList
    && RetainKeys(part.fsaLists, tracked) == RetainKeys(whole.fsaLists, tracked)
    && RetainKeys(part.programLists, tracked) == RetainKeys(whole.programLists, tracked)
    && RetainKeys(part.controlLists, tracked) == RetainKeys(whole.controlLists, tracked)
    && RetainKeys(part.curveLists, tracked) == RetainKeys(whole.curveLists, tracked)
    && RetainKeys(part.derLists, tracked) == RetainKeys(whole.derLists, tracked)
    && SubMap(part.endDevices, whole.endDevices) && HeldItems(part.endDevices, whole.endDevices, DeviceHref, tracked)
    && SubMap(part.fsas, whole.fsas) && HeldItems(part.fsas, whole.fsas, FsaHref, tracked)
    && SubMap(part.programs, whole.programs) && HeldItems(part.programs, whole.programs, ProgramHref, tracked)
    && HeldItems(part.controls, whole.controls, ControlHref, tracked)
    && HeldItems(part.curves, whole.curves, CurveHref, tracked)
  }

  lemma SameList<V>(part: map<Href, V>, whole: map<Href, V>, tracked: set<Href>, href: Href)
    requires RetainKeys(part, tracked) == RetainKeys(whole, tracked) && href in tracked
    ensures Get(part, href) == Get(whole, href)
  {
    assert href in part <==> href in RetainKeys(part, tracked);
    assert href in whole <==> href in RetainKeys(whole, tracked);
  }

  /** One list: if everything it contributes is tracked then a part holds it all, given the same one level down. */
  lemma ListLinksHeld<K(!new), V(!new)>(
    href: Href, kind: ResourceKind, itemKind: ResourceKind, pollRate: Option<nat>, list: Option<IDList<K>>,
    part: map<K, V>, whole: map<K, V>, hrefOf: V -> Option<Href>, f: V -> ResourceLinks, g: V -> ResourceLinks,
    tracked: set<Href>)
    requires ListLinks(href, kind, itemKind, pollRate, ListItems(list, whole), hrefOf, f).Keys <= tracked
    requires HeldItems(part, whole, hrefOf, tracked)
    requires forall k :: k in part && f(whole[k]).Keys <= tracked ==> f(whole[k]) == g(part[k])
    ensures ListLinks(href, kind, itemKind, pollRate, ListItems(list, whole), hrefOf, f)
         == ListLinks(href, kind, itemKind, pollRate, ListItems(list, part), hrefOf, g)
  {
    var found := ListItems(list, whole);
    forall h, x | x in found && (hrefOf(x) == Some(h) || h in f(x))
      ensures h in tracked
    {
      ListLinksKeys(href, kind, itemKind, pollRate, found, hrefOf, f, h);
    }
    if list.Some? {
      forall id | id in list.value.items && id in whole
        ensures id in part && f(whole[id]) == g(part[id])
      {
        LookupContains(list.value.items, whole, whole[id]);
        forall h | h in f(whole[id]) ensures h in tracked {}
      }
      FoundAlike(itemKind, pollRate, list.value.items, whole, part, hrefOf, f, g);
    }
  }

  lemma ListHrefTracked<T(!new)>(
    href: Href, kind: ResourceKind, itemKind: ResourceKind, pollRate: Option<nat>, items: seq<T>,
    hrefOf: T -> Option<Href>, itemLinks: T -> ResourceLinks)
    ensures href in ListLinks(href, kind, itemKind, pollRate, items, hrefOf, itemLinks)
  {
    ListLinksKeys(href, kind, itemKind, pollRate, items, hrefOf, itemLinks, href);
  }

  lemma ControlListHeld(part: ModelState, whole: ModelState, tracked: set<Href>, href: Href, pollRate: Option<nat>)
    requires Holds(part, whole, tracked) && ControlListLinks(whole, href, pollRate).Keys <= tracked
    ensures ControlListLinks(part, href, pollRate) == ControlListLinks(whole, href, pollRate)
  {
    var list := Get(whole.controlLists, href);
    ListHrefTracked(href, DERControlList, DERControl, pollRate, ListItems(list, whole.controls), ControlHref,
                    NoLinks());
    SameList(part.controlLists, whole.controlLists, tracked, href);
    ListLinksHeld(href, DERControlList, DERControl, pollRate, list, part.controls, whole.controls, ControlHref,
                  NoLinks(), NoLinks(), tracked);
  }

  lemma CurveListHeld(part: ModelState, whole: ModelState, tracked: set<Href>, href: Href, pollRate: Option<nat>)
    requires Holds(part, whole, tracked) && CurveListLinks(whole, href, pollRate).Keys <= tracked
    ensures CurveListLinks(part, href, pollRate) == CurveListLinks(whole, href, pollRate)
  {
    var list := Get(whole.curveLists, href);
    ListHrefTracked(href, DERCurveList, DERCurve, pollRate, ListItems(list, whole.curves), CurveHref, NoLinks());
    SameList(part.curveLists, whole.curveLists, tracked, href);
    ListLinksHeld(href, DERCurveList, DERCurve, pollRate, list, part.curves, whole.curves, CurveHref, NoLinks(),
                  NoLinks(), tracked);
  }

  lemma ProgramHeld(part: ModelState, whole: ModelState, tracked: set<Href>, program: ProgramResource,
                    pollRate: Option<nat>)
    requires Holds(part, whole, tracked) && ProgramLinks(whole, program, pollRate).Keys <= tracked
    ensures ProgramLinks(part, program, pollRate) == ProgramLinks(whole, program, pollRate)
  {
    if program.controlListLink.Some? {
      ControlListHeld(part, whole, tracked, program.controlListLink.value, pollRate);
    }
    if program.curveListLink.Some? {
      CurveListHeld(part, whole, tracked, program.curveListLink.value, pollRate);
    }
  }

  lemma ProgramListHeld(part: ModelState, whole: ModelState, tracked: set<Href>, href: Href)
    requires Holds(part, whole, tracked) && ProgramListLinks(whole, href).Keys <= tracked
    ensures ProgramListLinks(part, href) == ProgramListLinks(whole, href)
  {
    var list := Get(whole.programLists, href);
    var rate := PollRateOf(list);
    var f, g := ProgramLinksAt(whole, rate), ProgramLinksAt(part, rate);
    ListHrefTracked(href, DERProgramList, DERProgram, rate, ListItems(list, whole.programs), ProgramHref, f);
    SameList(part.programLists, whole.programLists, tracked, href);
    forall x | f(x).Keys <= tracked
      ensures f(x) == g(x)
    {
      ProgramHeld(part, whole, tracked, x, rate);
    }
    ListLinksHeld(href, DERProgramList, DERProgram, rate, list, part.programs, whole.programs, ProgramHref, f, g,
                  tracked);
  }

  lemma FsaListHeld(part: ModelState, whole: ModelState, tracked: set<Href>, href: Href)
    requires Holds(part, whole, tracked) && FsaListLinks(whole, href).Keys <= tracked
    ensures FsaListLinks(part, href) == FsaListLinks(whole, href)
  {
    var list := Get(whole.fsaLists, href);
    var rate := PollRateOf(list);
    var f, g := FsaLinksIn(whole), FsaLinksIn(part);
    ListHrefTracked(href, FunctionSetAssignmentsList, FunctionSetAssignments, rate, ListItems(list, whole.fsas),
                    FsaHref, f);
    SameList(part.fsaLists, whole.fsaLists, tracked, href);
    forall x | f(x).Keys <= tracked
      ensures f(x) == g(x)
    {
      if x.programListLink.Some? {
        ProgramListHeld(part, whole, tracked, x.programListLink.value);
      }
    }
    ListLinksHeld(href, FunctionSetAssignmentsList, FunctionSetAssignments, rate, list, part.fsas, whole.fsas, FsaHref,
                  f, g, tracked);
  }

  lemma DeviceHeld(part: ModelState, whole: ModelState, tracked: set<Href>, device: EndDeviceResource)
    requires Holds(part, whole, tracked) && DeviceLinks(whole, device).Keys <= tracked
    ensures DeviceLinks(part, device) == DeviceLinks(whole, device)
  {
    if device.fsaListLink.Some? {
      FsaListHeld(part, whole, tracked, device.fsaListLink.value);
    }
    if device.derListLink.Some? {
      assert device.derListLink.value in DeviceLinks(whole, device);
      SameList(part.derLists, whole.derLists, tracked, device.derListLink.value);
    }
  }

  /** A part that holds everything tracked has all links below the devices, if those are tracked. */
  lemma EndDevicesHeld(part: ModelState, whole: ModelState, tracked: set<Href>)
    requires Holds(part, whole, tracked) && EndDeviceLinks(whole).Keys <= tracked
    ensures EndDeviceLinks(part) == EndDeviceLinks(whole)
  {
    if whole.endDeviceList.Some? {
      var list := whole.endDeviceList.value;
      var f, g := DeviceLinksIn(whole), DeviceLinksIn(part);
      forall x | f(x).Keys <= tracked
        ensures f(x) == g(x)
      {
        DeviceHeld(part, whole, tracked, x);
      }
      ListLinksHeld(list.href, EndDeviceList, EndDevice, list.pollRate, whole.endDeviceList, part.endDevices,
                    whole.endDevices, DeviceHref, f, g, tracked);
    }
  }

  /** In particular the sweep loses only the href-less items of what it tracks. */
  lemma EndDevicesSwept(m: ModelState, tracked: set<Href>)
    requires EndDeviceLinks(WithHrefs(m)).Keys <= tracked
    ensures EndDeviceLinks(Sweep(m, tracked)) == EndDeviceLinks(WithHrefs(m))
  {
    SweepHolds(m, tracked);
    EndDevicesHeld(Sweep(m, tracked), WithHrefs(m), tracked);
  }

  lemma SweepHolds(m: ModelState, tracked: set<Href>)
    ensures Holds(Sweep(m, tracked), WithHrefs(m), tracked)
  {
    KeysNarrower(m.fsaLists, tracked, tracked);
    KeysNarrower(m.programLists, tracked, tracked);
    KeysNarrower(m.controlLists, tracked, tracked);
    KeysNarrower(m.curveLists, tracked, tracked);
    KeysNarrower(m.derLists, tracked, tracked);
  }

  // Forgetting items never adds a link.

  lemma ListLinksFewer<K(!new), V(!new)>(
    href: Href, kind: ResourceKind, itemKind: ResourceKind, pollRate: Option<nat>, list: Option<IDList<K>>,
    items: map<K, V>, hrefOf: V -> Option<Href>, f: V -> ResourceLinks, g: V -> ResourceLinks)
    requires forall x :: f(x).Keys <= g(x).Keys
    ensures ListLinks(href, kind, itemKind, pollRate, ListItems(list, DropHrefless(items, hrefOf)), hrefOf, f).Keys
         <= ListLinks(href, kind, itemKind, pollRate, ListItems(list, items), hrefOf, g).Keys
  {
    var kept := DropHrefless(items, hrefOf);
    forall h | h in ListLinks(href, kind, itemKind, pollRate, ListItems(list, kept), hrefOf, f)
      ensures h in ListLinks(href, kind, itemKind, pollRate, ListItems(list, items), hrefOf, g)
    {
      ListLinksKeys(href, kind, itemKind, pollRate, ListItems(list, kept), hrefOf, f, h);
      ListLinksKeys(href, kind, itemKind, pollRate, ListItems(list, items), hrefOf, g, h);
      if h != href {
        var x :| x in ListItems(list, kept) && (hrefOf(x) == Some(h) || h in f(x));
        LookupContains(list.value.items, kept, x);
        LookupContains(list.value.items, items, x);
        assert f(x).Keys <= g(x).Keys;
      }
    }
  }

  lemma ControlListFewer(m: ModelState, href: Href, pollRate: Option<nat>)
    ensures ControlListLinks(WithHrefs(m), href, pollRate).Keys <= ControlListLinks(m, href, pollRate).Keys
  {
    ListLinksFewer(href, DERControlList, DERControl, pollRate, Get(m.controlLists, href), m.controls, ControlHref,
                   NoLinks(), NoLinks());
  }

  lemma CurveListFewer(m: ModelState, href: Href, pollRate: Option<nat>)
    ensures CurveListLinks(WithHrefs(m), href, pollRate).Keys <= CurveListLinks(m, href, pollRate).Keys
  {
    ListLinksFewer(href, DERCurveList, DERCurve, pollRate, Get(m.curveLists, href), m.curves, CurveHref, NoLinks(),
                   NoLinks());
  }

  lemma ProgramFewer(m: ModelState, program: ProgramResource, pollRate: Option<nat>)
    ensures ProgramLinks(WithHrefs(m), program, pollRate).Keys <= ProgramLinks(m, program, pollRate).Keys
  {
    if program.controlListLink.Some? {
      ControlListFewer(m, program.controlListLink.value, pollRate);
    }
    if program.curveListLink.Some? {
      CurveListFewer(m, program.curveListLink.value, pollRate);
    }
  }

  lemma FsaFewer(m: ModelState, fsa: FsaResource)
    ensures FsaLinks(WithHrefs(m), fsa).Keys <= FsaLinks(m, fsa).Keys
  {
    if fsa.programListLink.Some? {
      var href := fsa.programListLink.value;
      var list := Get(m.programLists, href);
      var rate := PollRateOf(list);
      forall x ensures ProgramLinksAt(WithHrefs(m), rate)(x).Keys <= ProgramLinksAt(m, rate)(x).Keys {
        ProgramFewer(m, x, rate);
      }
      ListLinksFewer(href, DERProgramList, DERProgram, rate, list, m.programs, ProgramHref,
                     ProgramLinksAt(WithHrefs(m), rate), ProgramLinksAt(m, rate));
    }
  }

  lemma DeviceFewer(m: ModelState, device: EndDeviceResource)
    ensures DeviceLinks(WithHrefs(m), device).Keys <= DeviceLinks(m, device).Keys
  {
    if device.fsaListLink.Some? {
      var href := device.fsaListLink.value;
      var list := Get(m.fsaLists, href);
      forall x ensures FsaLinksIn(WithHrefs(m))(x).Keys <= FsaLinksIn(m)(x).Keys {
        FsaFewer(m, x);
      }
      ListLinksFewer(href, FunctionSetAssignmentsList, FunctionSetAssignments, PollRateOf(list), list, m.fsas,
                     FsaHref, FsaLinksIn(WithHrefs(m)), FsaLinksIn(m));
    }
  }

  lemma EndDevicesFewer(m: ModelState)
    ensures EndDeviceLinks(WithHrefs(m)).Keys <= EndDeviceLinks(m).Keys
  {
    if m.endDeviceList.Some? {
      var list := m.endDeviceList.value;
      forall x ensures DeviceLinksIn(WithHrefs(m))(x).Keys <= DeviceLinksIn(m)(x).Keys {
        DeviceFewer(m, x);
      }
      ListLinksFewer(list.href, EndDeviceList, EndDevice, list.pollRate, m.endDeviceList, m.endDevices, DeviceHref,
                     DeviceLinksIn(WithHrefs(m)), DeviceLinksIn(m));
    }
  }

  // The main results.

  /**
   For every model: sweeping by the model's own links leaves the links of the model without its
   href-less items, up to the one borrowed rate.
   */
  lemma SweepLosesOnlyHrefless(m: ModelState)
    ensures SameButMupRate(Links(Sweep(m, Links(m).Keys)), Links(WithHrefs(m)))
    ensures EndDeviceLinks(Sweep(m, Links(m).Keys)) == EndDeviceLinks(WithHrefs(m))
  {
    EndDevicesFewer(m);
    EndDevicesSwept(m, Links(m).Keys);
    DcapSwept(m, Links(m).Keys);
    OverlaidSame(DcapLinks(Sweep(m, Links(m).Keys)), DcapLinks(WithHrefs(m)), EndDeviceLinks(WithHrefs(m)));
  }

  /** A sweep loses no link exactly when the model has the same links without its href-less items. */
  lemma SweepLosesNothing(m: ModelState)
    ensures SameButMupRate(Links(Sweep(m, Links(m).Keys)), Links(m)) <==> SameButMupRate(Links(WithHrefs(m)), Links(m))
  {
    SweepLosesOnlyHrefless(m);
  }

  lemma DcapSwept(m: ModelState, tracked: set<Href>)
    ensures SameButMupRate(DcapLinks(Sweep(m, tracked)), DcapLinks(WithHrefs(m)))
  {
    if m.dcap.Some? {
      EntryLinksSame(m.dcap.value, m.time.pollRate, PollRateOf(m.endDeviceList), MupListPollRate(Sweep(m, tracked)),
                     MupListPollRate(m));
    }
  }

  lemma EntryLinksSame(dcap: DeviceCapability, timeRate: Option<nat>, listRate: Option<nat>, a: Option<nat>,
                       b: Option<nat>)
    ensures SameButMupRate(EntryLinks(dcap, timeRate, listRate, a), EntryLinks(dcap, timeRate, listRate, b))
  {
  }

  lemma OverlaidSame(a: ResourceLinks, b: ResourceLinks, top: ResourceLinks)
    requires SameButMupRate(a, b)
    ensures SameButMupRate(a + top, b + top)
  {
  }

  /** Every stored item that the links follow carries an href, as the standard asks. */
  ghost predicate AllHrefs(m: ModelState) {
    && EachHasHref(m.endDevices, DeviceHref)
    && EachHasHref(m.fsas, FsaHref)
    && EachHasHref(m.programs, ProgramHref)
    && EachHasHref(m.controls, ControlHref)
    && EachHasHref(m.curves, CurveHref)
  }

  ghost predicate EachHasHref<K(!new), V>(m: map<K, V>, hrefOf: V -> Option<Href>) {
    forall k :: k in m ==> hrefOf(m[k]).Some?
  }

  lemma AllHrefsIsWithHrefs(m: ModelState)
    requires AllHrefs(m)
    ensures WithHrefs(m) == m
  {
    assert DropHrefless(m.endDevices, DeviceHref) == m.endDevices;
    assert DropHrefless(m.fsas, FsaHref) == m.fsas;
    assert DropHrefless(m.programs, ProgramHref) == m.programs;
    assert DropHrefless(m.controls, ControlHref) == m.controls;
    assert DropHrefless(m.curves, CurveHref) == m.curves;
  }

  /** The rate on the MirrorUsagePointList's link does not depend on a list the sweep drops. */
  ghost predicate MupRateSurvives(m: ModelState) {
    || m.dcap.None?
    || m.dcap.value.mirrorUsagePointListLink.None?
    || MupListPollRate(m).None?
    || Tracked(m.mupList.value.href, Links(m).Keys)
    || m.dcap.value.mirrorUsagePointListLink.value in EndDeviceLinks(m)
  }

  /** With hrefs everywhere the sweep keeps every link, and every rate exactly when the MUP rate survives. */
  lemma SweepKeepsLinks(m: ModelState)
    requires AllHrefs(m)
    ensures SameButMupRate(Links(Sweep(m, Links(m).Keys)), Links(m))
    ensures Links(Sweep(m, Links(m).Keys)) == Links(m) <==> MupRateSurvives(m)
  {
    AllHrefsIsWithHrefs(m);
    SweepLosesOnlyHrefless(m);
    MupRateDecides(m, Sweep(m, Links(m).Keys));
  }

  lemma MupRateDecides(m: ModelState, s: ModelState)
    requires s.dcap == m.dcap && s.time == m.time && s.endDeviceList == m.endDeviceList
    requires s.mupList == if m.mupList.Some? && !Tracked(m.mupList.value.href, Links(m).Keys) then None else m.mupList
    requires EndDeviceLinks(s) == EndDeviceLinks(m)
    ensures Links(s) == Links(m) <==> MupRateSurvives(m)
  {
    if m.dcap.Some? {
      OneRateDecides(m.dcap.value, m.time.pollRate, PollRateOf(m.endDeviceList), MupListPollRate(s),
                     MupListPollRate(m), EndDeviceLinks(m));
    }
  }

  lemma OneRateDecides(
    dcap: DeviceCapability, timeRate: Option<nat>, listRate: Option<nat>, a: Option<nat>, b: Option<nat>,
    top: ResourceLinks)
    ensures EntryLinks(dcap, timeRate, listRate, a) + top == EntryLinks(dcap, timeRate, listRate, b) + top
       <==> a == b || dcap.mirrorUsagePointListLink.None? || dcap.mirrorUsagePointListLink.value in top
  {
    var x, y := EntryLinks(dcap, timeRate, listRate, a), EntryLinks(dcap, timeRate, listRate, b);
    if dcap.mirrorUsagePointListLink.Some? {
      var h := dcap.mirrorUsagePointListLink.value;
      assert x == y[h := ResourceLink(MirrorUsagePointList, a)];
      if h in top {
        assert x + top == y + top;
      } else {
        assert (x + top)[h].pollRate == a && (y + top)[h].pollRate == b;
      }
    }
  }

  lemma SweepKeepsHrefs(m: ModelState, tracked: set<Href>)
    ensures AllHrefs(Sweep(m, tracked))
  {
  }

  /** One sweep reaches a fixpoint, however deep the dropped subtree; without hrefs it takes a second. */
  lemma OneSweepIsEnough(m: ModelState)
    ensures var once := Sweep(m, Links(m).Keys);
            var twice := Sweep(once, Links(once).Keys);
            && (AllHrefs(m) ==> twice == once)
            && Sweep(twice, Links(twice).Keys) == twice
  {
    var once := Sweep(m, Links(m).Keys);
    SweepKeepsHrefs(m, Links(m).Keys);
    SweepKeepsLinks(once);
    var twice := Sweep(once, Links(once).Keys);
    assert Links(twice).Keys == Links(once).Keys;
    SweepTwice(once, Links(once).Keys);
    if AllHrefs(m) {
      SweepKeepsLinks(m);
      assert Links(once).Keys == Links(m).Keys;
      SweepTwice(m, Links(m).Keys);
    }
  }

  lemma SweepTwice(m: ModelState, tracked: set<Href>)
    ensures Sweep(Sweep(m, tracked), tracked) == Sweep(m, tracked)
  {
    SweepNarrower(m, tracked, tracked);
  }

  /** Sweeping by fewer hrefs later is sweeping by those at once. */
  lemma SweepNarrower(m: ModelState, tracked: set<Href>, fewer: set<Href>)
    requires fewer <= tracked
    ensures Sweep(Sweep(m, tracked), fewer) == Sweep(m, fewer)
  {
    KeysNarrower(m.fsaLists, tracked, fewer);
    KeysNarrower(m.programLists, tracked, fewer);
    KeysNarrower(m.controlLists, tracked, fewer);
    KeysNarrower(m.curveLists, tracked, fewer);
    KeysNarrower(m.derLists, tracked, fewer);
    TrackedNarrower(m.endDevices, DeviceHref, tracked, fewer);
    TrackedNarrower(m.fsas, FsaHref, tracked, fewer);
    TrackedNarrower(m.programs, ProgramHref, tracked, fewer);
    TrackedNarrower(m.controls, ControlHref, tracked, fewer);
    TrackedNarrower(m.curves, CurveHref, tracked, fewer);
    TrackedNarrower(m.defaultControls, DefaultControlHref, tracked, fewer);
  }

  lemma KeysNarrower<V>(m: map<Href, V>, tracked: set<Href>, fewer: set<Href>)
    requires fewer <= tracked
    ensures RetainKeys(RetainKeys(m, tracked), fewer) == RetainKeys(m, fewer)
  {
  }

  lemma TrackedNarrower<K, V>(m: map<K, V>, hrefOf: V -> Option<Href>, tracked: set<Href>, fewer: set<Href>)
    requires fewer <= tracked
    ensures RetainTracked(RetainTracked(m, hrefOf, tracked), hrefOf, fewer) == RetainTracked(m, hrefOf, fewer)
  {
  }

  ghost predicate EachTracked<K(!new), V>(m: map<K, V>, hrefOf: V -> Option<Href>, tracked: set<Href>) {
    forall k :: k in m ==> Tracked(hrefOf(m[k]), tracked)
  }

  /** Everything the model stores has a tracked href. */
  ghost predicate StoredWithin(m: ModelState, tracked: set<Href>) {
    && m.fsaLists.Keys <= tracked && m.programLists.Keys <= tracked && m.controlLists.Keys <= tracked
    && m.curveLists.Keys <= tracked && m.derLists.Keys <= tracked
    && (m.mupList.Some? ==> Tracked(m.mupList.value.href, tracked))
    && EachTracked(m.endDevices, DeviceHref, tracked) && EachTracked(m.fsas, FsaHref, tracked)
    && EachTracked(m.programs, ProgramHref, tracked) && EachTracked(m.controls, ControlHref, tracked)
    && EachTracked(m.curves, CurveHref, tracked) && EachTracked(m.defaultControls, DefaultControlHref, tracked)
  }

  /** A sweep changes nothing exactly if everything stored is tracked. */
  lemma SweepKeepsAllExactly(m: ModelState, tracked: set<Href>)
    ensures Sweep(m, tracked) == m <==> StoredWithin(m, tracked)
  {
    AllKeysKept(m.fsaLists, tracked);
    AllKeysKept(m.programLists, tracked);
    AllKeysKept(m.controlLists, tracked);
    AllKeysKept(m.curveLists, tracked);
    AllKeysKept(m.derLists, tracked);
    AllKept(m.endDevices, DeviceHref, tracked);
    AllKept(m.fsas, FsaHref, tracked);
    AllKept(m.programs, ProgramHref, tracked);
    AllKept(m.controls, ControlHref, tracked);
    AllKept(m.curves, CurveHref, tracked);
    AllKept(m.defaultControls, DefaultControlHref, tracked);
  }

  lemma AllKeysKept<V>(m: map<Href, V>, tracked: set<Href>)
    ensures RetainKeys(m, tracked) == m <==> m.Keys <= tracked
  {
    var kept := RetainKeys(m, tracked);
    forall k | k in m ensures k in kept <==> k in tracked {}
    if m.Keys <= tracked {
      assert kept == m;
    } else {
      var k :| k in m.Keys && k !in tracked;
      assert k !in kept;
    }
  }

  lemma AllKept<K(!new), V>(m: map<K, V>, hrefOf: V -> Option<Href>, tracked: set<Href>)
    ensures RetainTracked(m, hrefOf, tracked) == m <==> EachTracked(m, hrefOf, tracked)
  {
    var kept := RetainTracked(m, hrefOf, tracked);
    if EachTracked(m, hrefOf, tracked) {
      assert kept == m;
    } else {
      var k :| k in m && !Tracked(hrefOf(m[k]), tracked);
      assert k !in kept;
    }
  }
}
