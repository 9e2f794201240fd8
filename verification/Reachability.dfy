/** The links are exactly the hrefs marked level by level, so the sweep is a garbage collection. */
module Reachability {
  import opened Wrappers
  import opened ResourceTypes
  import opened ResourceGraph
  import opened ResourceLevels
  import opened LinkClaims

  ghost predicate ClaimedAs(m: ModelState, h: Href, kind: ResourceKind) {
    exists rate :: Claimed(m, Claim(h, ResourceLink(kind, rate)))
  }

  // From claims to levels.

  lemma ClaimIsOnLevel(m: ModelState, h: Href, kind: ResourceKind, rate: Option<nat>)
    requires Claimed(m, Claim(h, ResourceLink(kind, rate)))
    ensures OnLevel(m, h, kind)
  {
    match kind
    case FunctionSetAssignments =>
      var l, id :| && l in FsaListHrefs(m) && l in m.fsaLists && id in m.fsaLists[l].items && id in m.fsas
                   && m.fsas[id].href == Some(h);
      assert m.fsas[id] in Fsas(m);
    case DERProgram => ProgramClaimIsOnLevel(m, h, kind, rate);
    case DefaultDERControl => ProgramClaimIsOnLevel(m, h, kind, rate);
    case DERControlList => ProgramClaimIsOnLevel(m, h, kind, rate);
    case DERCurveList => ProgramClaimIsOnLevel(m, h, kind, rate);
    case DERControl => ControlClaimIsOnLevel(m, h, rate);
    case DERCurve => CurveClaimIsOnLevel(m, h, rate);
    case _ =>
  }

  lemma ControlClaimIsOnLevel(m: ModelState, h: Href, rate: Option<nat>)
    requires Claimed(m, Claim(h, ResourceLink(DERControl, rate)))
    ensures h in ControlHrefs(m)
  {
    var l, id, list, k :| && ProgramLinkAt(m, l, id, ControlsLink, list, rate) && list in m.controlLists
                          && k in m.controlLists[list].items && k in m.controls
                          && m.controls[k].control.href == Some(h);
    assert m.programs[id] in Programs(m) && list in ControlListHrefs(m);
    assert m.controls[k] in Controls(m);
  }

  lemma CurveClaimIsOnLevel(m: ModelState, h: Href, rate: Option<nat>)
    requires Claimed(m, Claim(h, ResourceLink(DERCurve, rate)))
    ensures h in CurveHrefs(m)
  {
    var l, id, list, k :| && ProgramLinkAt(m, l, id, CurvesLink, list, rate) && list in m.curveLists
                          && k in m.curveLists[list].items && k in m.curves && m.curves[k].href == Some(h);
    assert m.programs[id] in Programs(m) && list in CurveListHrefs(m);
    assert m.curves[k] in Curves(m);
  }

  lemma ProgramClaimIsOnLevel(m: ModelState, h: Href, kind: ResourceKind, rate: Option<nat>)
    requires Claimed(m, Claim(h, ResourceLink(kind, rate)))
    requires kind in {DERProgram, DefaultDERControl, DERControlList, DERCurveList}
    ensures OnLevel(m, h, kind)
  {
    match kind
    case DERProgram =>
      var l, id :| ProgramLinkAt(m, l, id, OwnHref, h, rate);
      assert m.programs[id] in Programs(m);
    case DefaultDERControl =>
      var l, id :| ProgramLinkAt(m, l, id, DefaultLink, h, rate);
      assert m.programs[id] in Programs(m);
    case DERControlList =>
      var l, id :| ProgramLinkAt(m, l, id, ControlsLink, h, rate);
      assert m.programs[id] in Programs(m);
    case DERCurveList =>
      var l, id :| ProgramLinkAt(m, l, id, CurvesLink, h, rate);
      assert m.programs[id] in Programs(m);
    case _ =>
  }

  // From levels to claims.

  lemma ProgramIsAt(m: ModelState, p: ProgramResource) returns (l: Href, id: Mrid)
    requires p in Programs(m)
    ensures ProgramAt(m, l, id) && m.programs[id] == p
  {
    l, id :| l in ProgramListHrefs(m) && l in m.programLists && id in m.programLists[l].items && id in m.programs
             && m.programs[id] == p;
  }

  lemma ProgramIsClaimed(m: ModelState, h: Href, kind: ResourceKind)
    requires OnLevel(m, h, kind) && kind in {DERProgram, DefaultDERControl, DERControlList, DERCurveList}
    ensures ClaimedAs(m, h, kind)
  {
    var link := match kind case DERProgram => OwnHref case DefaultDERControl => DefaultLink
                                                      case DERControlList => ControlsLink case _ => CurvesLink;
    var p :| p in Programs(m) && link(p) == Some(h);
    var l, id := ProgramIsAt(m, p);
    assert ProgramLinkAt(m, l, id, link, h, m.programLists[l].pollRate);
    assert Claimed(m, Claim(h, ResourceLink(kind, m.programLists[l].pollRate)));
  }

  lemma ControlIsClaimed(m: ModelState, h: Href)
    requires h in ControlHrefs(m)
    ensures ClaimedAs(m, h, DERControl)
  {
    var x :| x in Controls(m) && x.control.href == Some(h);
    var list, k :| list in ControlListHrefs(m) && list in m.controlLists && k in m.controlLists[list].items
                   && k in m.controls && m.controls[k] == x;
    var p :| p in Programs(m) && p.controlListLink == Some(list);
    var l, id := ProgramIsAt(m, p);
    assert ProgramLinkAt(m, l, id, ControlsLink, list, m.programLists[l].pollRate);
    assert Claimed(m, Claim(h, ResourceLink(DERControl, m.programLists[l].pollRate)));
  }

  lemma CurveIsClaimed(m: ModelState, h: Href)
    requires h in CurveHrefs(m)
    ensures ClaimedAs(m, h, DERCurve)
  {
    var x :| x in Curves(m) && x.href == Some(h);
    var list, k :| list in CurveListHrefs(m) && list in m.curveLists && k in m.curveLists[list].items
                   && k in m.curves && m.curves[k] == x;
    var p :| p in Programs(m) && p.curveListLink == Some(list);
    var l, id := ProgramIsAt(m, p);
    assert ProgramLinkAt(m, l, id, CurvesLink, list, m.programLists[l].pollRate);
    assert Claimed(m, Claim(h, ResourceLink(DERCurve, m.programLists[l].pollRate)));
  }

  lemma AboveProgramsIsClaimed(m: ModelState, h: Href, kind: ResourceKind)
    requires OnLevel(m, h, kind)
    requires kind in {Time, EndDeviceList, MirrorUsagePointList, EndDevice, DERList, FunctionSetAssignmentsList,
                      FunctionSetAssignments, DERProgramList}
    ensures ClaimedAs(m, h, kind)
  {
    match kind
    case Time => assert Claimed(m, Claim(h, ResourceLink(kind, m.time.pollRate)));
    case MirrorUsagePointList => assert Claimed(m, Claim(h, ResourceLink(kind, MupRate(m))));
    case DERList => assert Claimed(m, Claim(h, ResourceLink(kind, DerListRate(m, h))));
    case FunctionSetAssignmentsList => assert Claimed(m, Claim(h, ResourceLink(kind, StoredRate(m.fsaLists, h))));
    case DERProgramList => assert Claimed(m, Claim(h, ResourceLink(kind, StoredRate(m.programLists, h))));
    case FunctionSetAssignments =>
      var f :| f in Fsas(m) && f.href == Some(h);
      var l, id :| l in FsaListHrefs(m) && l in m.fsaLists && id in m.fsaLists[l].items && id in m.fsas
                   && m.fsas[id] == f;
      assert Claimed(m, Claim(h, ResourceLink(kind, m.fsaLists[l].pollRate)));
    case EndDevice => assert Claimed(m, Claim(h, ResourceLink(kind, DevicesRate(m))));
    case EndDeviceList => assert Claimed(m, Claim(h, ResourceLink(kind, DevicesRate(m))));
    case _ =>
  }

  /** A resource of some kind is claimed at an href exactly if the href is on that level. */
  lemma LevelsAreClaimed(m: ModelState, h: Href, kind: ResourceKind)
    ensures ClaimedAs(m, h, kind) <==> OnLevel(m, h, kind)
  {
    if rate :| Claimed(m, Claim(h, ResourceLink(kind, rate))) {
      ClaimIsOnLevel(m, h, kind, rate);
    }
    if OnLevel(m, h, kind) {
      match kind
      case DERProgram => ProgramIsClaimed(m, h, kind);
      case DefaultDERControl => ProgramIsClaimed(m, h, kind);
      case DERControlList => ProgramIsClaimed(m, h, kind);
      case DERCurveList => ProgramIsClaimed(m, h, kind);
      case DERControl => ControlIsClaimed(m, h);
      case DERCurve => CurveIsClaimed(m, h);
      case _ => AboveProgramsIsClaimed(m, h, kind);
    }
  }

  /** The links are exactly the marked hrefs. */
  lemma LinksAreMarked(m: ModelState, h: Href)
    ensures h in Links(m) <==> Marked(m, h)
  {
    LinkIsLastClaim(m, h);
    if h in Links(m) {
      ClaimIsOnLevel(m, h, Links(m)[h].kind, Links(m)[h].pollRate);
      OnLevelIsMarked(m, h, Links(m)[h].kind);
    }
    if Marked(m, h) {
      var kind := LevelOf(m, h);
      LevelsAreClaimed(m, h, kind);
    }
  }

  /** No other level needs this href. */
  ghost predicate Alone(m: ModelState, h: Href, kind: ResourceKind) {
    forall other :: OnLevel(m, h, other) ==> other == kind
  }

  /** An href that is on one level only is linked with the kind of that level, and a rate claimed there. */
  lemma KindOfLevel(m: ModelState, h: Href, kind: ResourceKind)
    requires OnLevel(m, h, kind) && Alone(m, h, kind)
    ensures h in Links(m) && Links(m)[h].kind == kind && Claimed(m, Claim(h, Links(m)[h]))
  {
    LevelsAreClaimed(m, h, kind);
    LinkIsLastClaim(m, h);
    ClaimIsOnLevel(m, h, Links(m)[h].kind, Links(m)[h].pollRate);
  }

  ghost predicate IsMarked(m: ModelState, href: Option<Href>) {
    href.Some? && Marked(m, href.value)
  }

  ghost predicate KeptLists<V>(m: ModelState, before: map<Href, V>, after: map<Href, V>) {
    && (forall l :: l in after <==> l in before && Marked(m, l))
    && (forall l :: l in after ==> after[l] == before[l])
  }

  ghost function MarkedDevices(m: ModelState): set<Lfdi> {
    set k | k in m.endDevices && IsMarked(m, m.endDevices[k].href)
  }

  ghost function MarkedFsas(m: ModelState): set<Mrid> {
    set k | k in m.fsas && IsMarked(m, m.fsas[k].href)
  }

  ghost function MarkedPrograms(m: ModelState): set<Mrid> {
    set k | k in m.programs && IsMarked(m, m.programs[k].href)
  }

  ghost function MarkedControls(m: ModelState): set<Mrid> {
    set k | k in m.controls && IsMarked(m, m.controls[k].control.href)
  }

  ghost function MarkedCurves(m: ModelState): set<Mrid> {
    set k | k in m.curves && IsMarked(m, m.curves[k].href)
  }

  ghost function MarkedDefaults(m: ModelState): set<Href> {
    set k | k in m.defaultControls && IsMarked(m, m.defaultControls[k].href)
  }

  ghost predicate Kept<K(!new), V>(before: map<K, V>, after: map<K, V>, keys: set<K>) {
    after.Keys == keys && forall k :: k in after ==> k in before && after[k] == before[k]
  }

  /** The swept model holds exactly what is marked, unaltered. */
  ghost predicate SweptTo(m: ModelState, s: ModelState) {
    && KeptLists(m, m.fsaLists, s.fsaLists) && KeptLists(m, m.programLists, s.programLists)
    && KeptLists(m, m.controlLists, s.controlLists) && KeptLists(m, m.curveLists, s.curveLists)
    && KeptLists(m, m.derLists, s.derLists)
    && Kept(m.endDevices, s.endDevices, MarkedDevices(m)) && Kept(m.fsas, s.fsas, MarkedFsas(m))
    && Kept(m.programs, s.programs, MarkedPrograms(m)) && Kept(m.controls, s.controls, MarkedControls(m))
    && Kept(m.curves, s.curves, MarkedCurves(m)) && Kept(m.defaultControls, s.defaultControls, MarkedDefaults(m))
    && s.mupList == (if m.mupList.Some? && IsMarked(m, m.mupList.value.href) then m.mupList else None)
    && s.endDeviceList == m.endDeviceList && s.dcap == m.dcap && s.time == m.time
  }

  lemma ListsRetained<V>(m: ModelState, lists: map<Href, V>, tracked: set<Href>)
    requires forall h :: h in tracked <==> Marked(m, h)
    ensures KeptLists(m, lists, RetainKeys(lists, tracked))
  {
  }

  lemma ItemsRetained<K(!new), V>(items: map<K, V>, hrefOf: V -> Option<Href>, tracked: set<Href>, keys: set<K>)
    requires forall k :: k in keys <==> k in items && Tracked(hrefOf(items[k]), tracked)
    ensures Kept(items, RetainTracked(items, hrefOf, tracked), keys)
  {
  }

  /**
   The sweep by the model's own links is a garbage collection: a stored list stays exactly when it
   is marked, and a stored entity or MirrorUsagePointList exactly when its href is. Nothing kept is altered.
   */
  lemma SweepKeepsExactlyMarked(m: ModelState)
    ensures SweptTo(m, Sweep(m, Links(m).Keys))
  {
    var tracked := Links(m).Keys;
    forall h ensures h in tracked <==> Marked(m, h) {
      LinksAreMarked(m, h);
    }
    SweptByMarks(m, tracked);
  }

  lemma SweptByMarks(m: ModelState, tracked: set<Href>)
    requires forall h :: h in tracked <==> Marked(m, h)
    ensures SweptTo(m, Sweep(m, tracked))
  {
    ListsRetained(m, m.fsaLists, tracked);
    ListsRetained(m, m.programLists, tracked);
    ListsRetained(m, m.controlLists, tracked);
    ListsRetained(m, m.curveLists, tracked);
    ListsRetained(m, m.derLists, tracked);
    ItemsRetained(m.endDevices, DeviceHref, tracked, MarkedDevices(m));
    ItemsRetained(m.fsas, FsaHref, tracked, MarkedFsas(m));
    ItemsRetained(m.programs, ProgramHref, tracked, MarkedPrograms(m));
    ItemsRetained(m.controls, ControlHref, tracked, MarkedControls(m));
    ItemsRetained(m.curves, CurveHref, tracked, MarkedCurves(m));
    ItemsRetained(m.defaultControls, DefaultControlHref, tracked, MarkedDefaults(m));
  }
}
