/**
 Which resource each link stands for: kind and poll rate, level by level, and what happens to an href that
 several levels claim.
 */
module LinkClaims {
  import opened Wrappers
  import opened ResourceTypes
  import opened ResourceGraph
  import opened SweepCorrectness
  import opened ResourceLevels

  /** An href with what one place in the model says of it. */
  datatype Claim = Claim(href: Href, link: ResourceLink)

  function StoredRate<K>(lists: map<Href, IDList<K>>, href: Href): Option<nat> {
    if href in lists then lists[href].pollRate else None
  }

  function DerListRate(m: ModelState, href: Href): Option<nat> {
    if href in m.derLists then m.derLists[href].pollRate else None
  }

  function DevicesRate(m: ModelState): Option<nat> {
    if m.endDeviceList.Some? then m.endDeviceList.value.pollRate else None
  }

  function MupRate(m: ModelState): Option<nat> {
    if m.mupList.Some? then m.mupList.value.pollRate else None
  }

  /** The program is listed in this DERProgramList, whose rate everything below it uses. */
  ghost predicate ProgramAt(m: ModelState, list: Href, id: Mrid) {
    list in ProgramListHrefs(m) && list in m.programLists && id in m.programLists[list].items && id in m.programs
  }

  ghost predicate ProgramLinkAt(m: ModelState, list: Href, id: Mrid, link: ProgramResource -> Option<Href>, href: Href,
                                rate: Option<nat>) {
    ProgramAt(m, list, id) && link(m.programs[id]) == Some(href) && rate == m.programLists[list].pollRate
  }

  function OwnHref(p: ProgramResource): Option<Href> { p.href }

  function DefaultLink(p: ProgramResource): Option<Href> { p.defaultControlLink }

  function ControlsLink(p: ProgramResource): Option<Href> { p.controlListLink }

  function CurvesLink(p: ProgramResource): Option<Href> { p.curveListLink }

  /** What the model says of an href, by kind of resource. */
  ghost predicate Claimed(m: ModelState, c: Claim) {
    var href, rate := c.href, c.link.pollRate;
    match c.link.kind
    case Time => m.dcap.Some? && m.dcap.value.timeLink == Some(href) && rate == m.time.pollRate
    case EndDeviceList =>
      || (m.dcap.Some? && m.dcap.value.endDeviceListLink == Some(href) && rate == DevicesRate(m))
      || (m.endDeviceList.Some? && m.endDeviceList.value.href == href && rate == m.endDeviceList.value.pollRate)
    case MirrorUsagePointList =>
      m.dcap.Some? && m.dcap.value.mirrorUsagePointListLink == Some(href) && rate == MupRate(m)
    case EndDevice => href in DeviceHrefs(m) && rate == DevicesRate(m)
    case DERList =>
      href in DerListHrefs(m) && rate == DerListRate(m, href)
    case FunctionSetAssignmentsList => href in FsaListHrefs(m) && rate == StoredRate(m.fsaLists, href)
    case FunctionSetAssignments =>
      exists l, id :: && l in FsaListHrefs(m) && l in m.fsaLists && id in m.fsaLists[l].items && id in m.fsas
                      && m.fsas[id].href == Some(href) && rate == m.fsaLists[l].pollRate
    case DERProgramList => href in ProgramListHrefs(m) && rate == StoredRate(m.programLists, href)
    case DERProgram => exists l, id :: ProgramLinkAt(m, l, id, OwnHref, href, rate)
    case DefaultDERControl => exists l, id :: ProgramLinkAt(m, l, id, DefaultLink, href, rate)
    case DERControlList => exists l, id :: ProgramLinkAt(m, l, id, ControlsLink, href, rate)
    case DERCurveList => exists l, id :: ProgramLinkAt(m, l, id, CurvesLink, href, rate)
    case DERControl =>
      exists l, id, list, k :: && ProgramLinkAt(m, l, id, ControlsLink, list, rate) && list in m.controlLists
                               && k in m.controlLists[list].items && k in m.controls
                               && m.controls[k].control.href == Some(href)
    case DERCurve =>
      exists l, id, list, k :: && ProgramLinkAt(m, l, id, CurvesLink, list, rate) && list in m.curveLists
                               && k in m.curveLists[list].items && k in m.curves && m.curves[k].href == Some(href)
  }

  // All claims, in the order in which the links are chained.

  function Own(href: Option<Href>, link: ResourceLink): seq<Claim> {
    match href
    case None => []
    case Some(href) => [Claim(href, link)]
  }

  function ItemClaims<T>(
    link: ResourceLink, items: seq<T>, hrefOf: T -> Option<Href>, below: T -> seq<Claim>): seq<Claim>
  {
    if items == [] then [] else
    Own(hrefOf(items[0]), link) + below(items[0]) + ItemClaims(link, items[1..], hrefOf, below)
  }

  function ListClaims<T>(
    href: Href, kind: ResourceKind, itemKind: ResourceKind, rate: Option<nat>, items: seq<T>,
    hrefOf: T -> Option<Href>, below: T -> seq<Claim>): seq<Claim>
  {
    [Claim(href, ResourceLink(kind, rate))] + ItemClaims(ResourceLink(itemKind, rate), items, hrefOf, below)
  }

  function NoClaims<T>(): T -> seq<Claim> {
    _ => []
  }

  function ControlListClaims(m: ModelState, href: Href, rate: Option<nat>): seq<Claim> {
    ListClaims(href, DERControlList, DERControl, rate, ListItems(Get(m.controlLists, href), m.controls), ControlHref,
               NoClaims())
  }

  function CurveListClaims(m: ModelState, href: Href, rate: Option<nat>): seq<Claim> {
    ListClaims(href, DERCurveList, DERCurve, rate, ListItems(Get(m.curveLists, href), m.curves), CurveHref, NoClaims())
  }

  function ProgramClaims(m: ModelState, p: ProgramResource, rate: Option<nat>): seq<Claim> {
    Own(p.defaultControlLink, ResourceLink(DefaultDERControl, rate))
    + (match p.controlListLink case None => [] case Some(href) => ControlListClaims(m, href, rate))
    + (match p.curveListLink case None => [] case Some(href) => CurveListClaims(m, href, rate))
  }

  function ProgramClaimsAt(m: ModelState, rate: Option<nat>): ProgramResource -> seq<Claim> {
    p => ProgramClaims(m, p, rate)
  }

  function ProgramListClaims(m: ModelState, href: Href): seq<Claim> {
    var list := Get(m.programLists, href);
    ListClaims(href, DERProgramList, DERProgram, PollRateOf(list), ListItems(list, m.programs), ProgramHref,
               ProgramClaimsAt(m, PollRateOf(list)))
  }

  function FsaClaims(m: ModelState, f: FsaResource): seq<Claim> {
    match f.programListLink
    case None => []
    case Some(href) => ProgramListClaims(m, href)
  }

  function FsaClaimsIn(m: ModelState): FsaResource -> seq<Claim> {
    f => FsaClaims(m, f)
  }

  function FsaListClaims(m: ModelState, href: Href): seq<Claim> {
    var list := Get(m.fsaLists, href);
    ListClaims(href, FunctionSetAssignmentsList, FunctionSetAssignments, PollRateOf(list), ListItems(list, m.fsas),
               FsaHref, FsaClaimsIn(m))
  }

  function DerListClaims(m: ModelState, link: Option<Href>): seq<Claim> {
    match link
    case None => []
    case Some(href) => [Claim(href, ResourceLink(DERList, DerListRate(m, href)))]
  }

  function DeviceClaims(m: ModelState, d: EndDeviceResource): seq<Claim> {
    (match d.fsaListLink case None => [] case Some(href) => FsaListClaims(m, href)) + DerListClaims(m, d.derListLink)
  }

  function DeviceClaimsIn(m: ModelState): EndDeviceResource -> seq<Claim> {
    d => DeviceClaims(m, d)
  }

  function EndDeviceClaims(m: ModelState): seq<Claim> {
    match m.endDeviceList
    case None => []
    case Some(list) =>
      ListClaims(list.href, EndDeviceList, EndDevice, list.pollRate, ListItems(Some(list), m.endDevices), DeviceHref,
                 DeviceClaimsIn(m))
  }

  function DcapClaims(m: ModelState): seq<Claim> {
    match m.dcap
    case None => []
    case Some(dcap) =>
      Own(dcap.timeLink, ResourceLink(Time, m.time.pollRate))
      + Own(dcap.endDeviceListLink, ResourceLink(EndDeviceList, PollRateOf(m.endDeviceList)))
      + Own(dcap.mirrorUsagePointListLink, ResourceLink(MirrorUsagePointList, MupListPollRate(m)))
  }

  function AllClaims(m: ModelState): seq<Claim> {
    DcapClaims(m) + EndDeviceClaims(m)
  }

  // The links are the claims collected, the last one of each href winning.

  function Collected(claims: seq<Claim>): ResourceLinks {
    if claims == [] then map[] else
    var last := claims[|claims| - 1];
    Collected(claims[..|claims| - 1])[last.href := last.link]
  }

  lemma {:induction false} CollectedConcat(a: seq<Claim>, b: seq<Claim>)
    ensures Collected(a + b) == Collected(a) + Collected(b)
    decreases |b|
  {
    if b == [] {
      assert a + b == a;
    } else {
      assert (a + b)[..|a| + |b| - 1] == a + b[..|b| - 1];
      CollectedConcat(a, b[..|b| - 1]);
    }
  }

  lemma OneCollected(c: Claim)
    ensures Collected([c]) == map[c.href := c.link]
  {
    assert [c][..0] == [];
  }

  lemma OwnCollected(href: Option<Href>, link: ResourceLink)
    ensures Collected(Own(href, link)) == LinkIfAny(href, link.kind, link.pollRate)
  {
    if href.Some? { OneCollected(Claim(href.value, link)); }
  }

  lemma {:induction false} ItemsCollected<T>(
    kind: ResourceKind, rate: Option<nat>, items: seq<T>, hrefOf: T -> Option<Href>, links: T -> ResourceLinks,
    below: T -> seq<Claim>)
    requires forall x :: x in items ==> links(x) == Collected(below(x))
    ensures ItemsLinks(kind, rate, items, hrefOf, links)
         == Collected(ItemClaims(ResourceLink(kind, rate), items, hrefOf, below))
  {
    if items != [] {
      var link := ResourceLink(kind, rate);
      var own, rest := Own(hrefOf(items[0]), link), ItemClaims(link, items[1..], hrefOf, below);
      ItemsCollected(kind, rate, items[1..], hrefOf, links, below);
      OwnCollected(hrefOf(items[0]), link);
      CollectedConcat(own, below(items[0]));
      CollectedConcat(own + below(items[0]), rest);
    }
  }

  lemma ListCollected<T>(
    href: Href, kind: ResourceKind, itemKind: ResourceKind, rate: Option<nat>, items: seq<T>,
    hrefOf: T -> Option<Href>, links: T -> ResourceLinks, below: T -> seq<Claim>)
    requires forall x :: x in items ==> links(x) == Collected(below(x))
    ensures ListLinks(href, kind, itemKind, rate, items, hrefOf, links)
         == Collected(ListClaims(href, kind, itemKind, rate, items, hrefOf, below))
  {
    ItemsCollected(itemKind, rate, items, hrefOf, links, below);
    var first := Claim(href, ResourceLink(kind, rate));
    OneCollected(first);
    CollectedConcat([first], ItemClaims(ResourceLink(itemKind, rate), items, hrefOf, below));
  }

  lemma ControlListCollected(m: ModelState, href: Href, rate: Option<nat>)
    ensures ControlListLinks(m, href, rate) == Collected(ControlListClaims(m, href, rate))
  {
    ListCollected(href, DERControlList, DERControl, rate, ListItems(Get(m.controlLists, href), m.controls), ControlHref,
                  NoLinks(), NoClaims());
  }

  lemma CurveListCollected(m: ModelState, href: Href, rate: Option<nat>)
    ensures CurveListLinks(m, href, rate) == Collected(CurveListClaims(m, href, rate))
  {
    ListCollected(href, DERCurveList, DERCurve, rate, ListItems(Get(m.curveLists, href), m.curves), CurveHref,
                  NoLinks(), NoClaims());
  }

  lemma ProgramCollected(m: ModelState, p: ProgramResource, rate: Option<nat>)
    ensures ProgramLinks(m, p, rate) == Collected(ProgramClaims(m, p, rate))
  {
    var own := Own(p.defaultControlLink, ResourceLink(DefaultDERControl, rate));
    var controls := match p.controlListLink case None => [] case Some(href) => ControlListClaims(m, href, rate);
    var curves := match p.curveListLink case None => [] case Some(href) => CurveListClaims(m, href, rate);
    OwnCollected(p.defaultControlLink, ResourceLink(DefaultDERControl, rate));
    if p.controlListLink.Some? { ControlListCollected(m, p.controlListLink.value, rate); }
    if p.curveListLink.Some? { CurveListCollected(m, p.curveListLink.value, rate); }
    CollectedConcat(own, controls);
    CollectedConcat(own + controls, curves);
  }

  lemma ProgramListCollected(m: ModelState, href: Href)
    ensures ProgramListLinks(m, href) == Collected(ProgramListClaims(m, href))
  {
    var list := Get(m.programLists, href);
    var rate := PollRateOf(list);
    forall p ensures ProgramLinksAt(m, rate)(p) == Collected(ProgramClaimsAt(m, rate)(p)) {
      ProgramCollected(m, p, rate);
    }
    ListCollected(href, DERProgramList, DERProgram, rate, ListItems(list, m.programs), ProgramHref,
                  ProgramLinksAt(m, rate), ProgramClaimsAt(m, rate));
  }

  lemma FsaListCollected(m: ModelState, href: Href)
    ensures FsaListLinks(m, href) == Collected(FsaListClaims(m, href))
  {
    var list := Get(m.fsaLists, href);
    forall f: FsaResource ensures FsaLinksIn(m)(f) == Collected(FsaClaimsIn(m)(f)) {
      if f.programListLink.Some? { ProgramListCollected(m, f.programListLink.value); }
    }
    ListCollected(href, FunctionSetAssignmentsList, FunctionSetAssignments, PollRateOf(list), ListItems(list, m.fsas),
                  FsaHref, FsaLinksIn(m), FsaClaimsIn(m));
  }

  lemma DeviceCollected(m: ModelState, d: EndDeviceResource)
    ensures DeviceLinks(m, d) == Collected(DeviceClaims(m, d))
  {
    var fsas := match d.fsaListLink case None => [] case Some(href) => FsaListClaims(m, href);
    if d.fsaListLink.Some? { FsaListCollected(m, d.fsaListLink.value); }
    if d.derListLink.Some? {
      OneCollected(Claim(d.derListLink.value, ResourceLink(DERList, DerListRate(m, d.derListLink.value))));
    }
    CollectedConcat(fsas, DerListClaims(m, d.derListLink));
  }

  lemma EndDevicesCollected(m: ModelState)
    ensures EndDeviceLinks(m) == Collected(EndDeviceClaims(m))
  {
    if m.endDeviceList.Some? {
      var list := m.endDeviceList.value;
      forall d ensures DeviceLinksIn(m)(d) == Collected(DeviceClaimsIn(m)(d)) {
        DeviceCollected(m, d);
      }
      ListCollected(list.href, EndDeviceList, EndDevice, list.pollRate, ListItems(m.endDeviceList, m.endDevices),
                    DeviceHref, DeviceLinksIn(m), DeviceClaimsIn(m));
    }
  }

  lemma DcapCollected(m: ModelState)
    ensures DcapLinks(m) == Collected(DcapClaims(m))
  {
    if m.dcap.Some? {
      var dcap := m.dcap.value;
      var time, devices, mups := ResourceLink(Time, m.time.pollRate),
                                 ResourceLink(EndDeviceList, PollRateOf(m.endDeviceList)),
                                 ResourceLink(MirrorUsagePointList, MupListPollRate(m));
      OwnCollected(dcap.timeLink, time);
      OwnCollected(dcap.endDeviceListLink, devices);
      OwnCollected(dcap.mirrorUsagePointListLink, mups);
      CollectedConcat(Own(dcap.timeLink, time), Own(dcap.endDeviceListLink, devices));
      CollectedConcat(Own(dcap.timeLink, time) + Own(dcap.endDeviceListLink, devices),
                      Own(dcap.mirrorUsagePointListLink, mups));
    }
  }

  lemma LinksAreCollected(m: ModelState)
    ensures Links(m) == Collected(AllClaims(m))
  {
    DcapCollected(m);
    EndDevicesCollected(m);
    CollectedConcat(DcapClaims(m), EndDeviceClaims(m));
  }

  // What is claimed, list by list.

  lemma {:induction false} InItems<T(!new)>(link: ResourceLink, items: seq<T>, hrefOf: T -> Option<Href>,
                                            below: T -> seq<Claim>, c: Claim)
    ensures c in ItemClaims(link, items, hrefOf, below)
       <==> exists x :: x in items && ((hrefOf(x) == Some(c.href) && c.link == link) || c in below(x))
  {
    if items != [] {
      InItems(link, items[1..], hrefOf, below, c);
      assert items == [items[0]] + items[1..];
      assert c in Own(hrefOf(items[0]), link) <==> hrefOf(items[0]) == Some(c.href) && c.link == link;
    }
  }

  lemma InListed<K(!new), V(!new)>(
    href: Href, kind: ResourceKind, itemKind: ResourceKind, rate: Option<nat>, list: Option<IDList<K>>,
    items: map<K, V>, hrefOf: V -> Option<Href>, below: V -> seq<Claim>, c: Claim)
    ensures c in ListClaims(href, kind, itemKind, rate, ListItems(list, items), hrefOf, below)
       <==> (|| c == Claim(href, ResourceLink(kind, rate))
             || (list.Some? && exists id :: && id in list.value.items && id in items
                                            && ((hrefOf(items[id]) == Some(c.href)
                                                 && c.link == ResourceLink(itemKind, rate))
                                                || c in below(items[id]))))
  {
    var found := ListItems(list, items);
    InItems(ResourceLink(itemKind, rate), found, hrefOf, below, c);
    if list.Some? {
      forall x ensures x in found <==> exists id :: id in list.value.items && id in items && items[id] == x {
        LookupContains(list.value.items, items, x);
      }
      forall id | id in list.value.items && id in items ensures items[id] in found {
        LookupContains(list.value.items, items, items[id]);
      }
    }
  }

  lemma InControlListClaims(m: ModelState, l: Href, rate: Option<nat>, c: Claim)
    ensures c in ControlListClaims(m, l, rate)
       <==> (|| c == Claim(l, ResourceLink(DERControlList, rate))
             || (&& c.link == ResourceLink(DERControl, rate) && l in m.controlLists
                 && exists k :: k in m.controlLists[l].items && k in m.controls
                                && m.controls[k].control.href == Some(c.href)))
  {
    InListed(l, DERControlList, DERControl, rate, Get(m.controlLists, l), m.controls, ControlHref, NoClaims(), c);
  }

  lemma InCurveListClaims(m: ModelState, l: Href, rate: Option<nat>, c: Claim)
    ensures c in CurveListClaims(m, l, rate)
       <==> (|| c == Claim(l, ResourceLink(DERCurveList, rate))
             || (&& c.link == ResourceLink(DERCurve, rate) && l in m.curveLists
                 && exists k :: k in m.curveLists[l].items && k in m.curves && m.curves[k].href == Some(c.href)))
  {
    InListed(l, DERCurveList, DERCurve, rate, Get(m.curveLists, l), m.curves, CurveHref, NoClaims(), c);
  }

  // From the claims of the traversal to the levels.

  lemma ProgramClaimed(m: ModelState, l: Href, id: Mrid, c: Claim)
    requires ProgramAt(m, l, id) && c in ProgramClaims(m, m.programs[id], m.programLists[l].pollRate)
    ensures Claimed(m, c)
  {
    var p, rate := m.programs[id], m.programLists[l].pollRate;
    if p.defaultControlLink == Some(c.href) && c.link == ResourceLink(DefaultDERControl, rate) {
      assert ProgramLinkAt(m, l, id, DefaultLink, c.href, rate);
    } else if p.controlListLink.Some? && c in ControlListClaims(m, p.controlListLink.value, rate) {
      assert ProgramLinkAt(m, l, id, ControlsLink, p.controlListLink.value, rate);
      InControlListClaims(m, p.controlListLink.value, rate, c);
    } else {
      assert ProgramLinkAt(m, l, id, CurvesLink, p.curveListLink.value, rate);
      InCurveListClaims(m, p.curveListLink.value, rate, c);
    }
  }

  lemma ProgramListClaimed(m: ModelState, l: Href, c: Claim)
    requires l in ProgramListHrefs(m) && c in ProgramListClaims(m, l)
    ensures Claimed(m, c)
  {
    var list := Get(m.programLists, l);
    InListed(l, DERProgramList, DERProgram, PollRateOf(list), list, m.programs, ProgramHref,
             ProgramClaimsAt(m, PollRateOf(list)), c);
    if c != Claim(l, ResourceLink(DERProgramList, PollRateOf(list))) {
      var id :| && id in list.value.items && id in m.programs
                && ((ProgramHref(m.programs[id]) == Some(c.href)
                     && c.link == ResourceLink(DERProgram, PollRateOf(list)))
                    || c in ProgramClaims(m, m.programs[id], PollRateOf(list)));
      assert ProgramAt(m, l, id);
      if c in ProgramClaims(m, m.programs[id], PollRateOf(list)) {
        ProgramClaimed(m, l, id, c);
      } else {
        assert ProgramLinkAt(m, l, id, OwnHref, c.href, PollRateOf(list));
      }
    }
  }

  lemma FsaListClaimed(m: ModelState, l: Href, c: Claim)
    requires l in FsaListHrefs(m) && c in FsaListClaims(m, l)
    ensures Claimed(m, c)
  {
    var list := Get(m.fsaLists, l);
    InListed(l, FunctionSetAssignmentsList, FunctionSetAssignments, PollRateOf(list), list, m.fsas, FsaHref,
             FsaClaimsIn(m), c);
    if c != Claim(l, ResourceLink(FunctionSetAssignmentsList, PollRateOf(list))) {
      var id :| && id in list.value.items && id in m.fsas
                && ((FsaHref(m.fsas[id]) == Some(c.href)
                     && c.link == ResourceLink(FunctionSetAssignments, PollRateOf(list)))
                    || c in FsaClaims(m, m.fsas[id]));
      assert m.fsas[id] in Fsas(m);
      if c in FsaClaims(m, m.fsas[id]) {
        ProgramListClaimed(m, m.fsas[id].programListLink.value, c);
      }
    }
  }

  lemma DeviceClaimed(m: ModelState, d: EndDeviceResource, c: Claim)
    requires d in Devices(m) && c in DeviceClaims(m, d)
    ensures Claimed(m, c)
  {
    if d.fsaListLink.Some? && c in FsaListClaims(m, d.fsaListLink.value) {
      FsaListClaimed(m, d.fsaListLink.value, c);
    } else {
      assert c in DerListClaims(m, d.derListLink) && c.href in DerListHrefs(m);
    }
  }

  lemma EndDeviceClaimed(m: ModelState, c: Claim)
    requires c in EndDeviceClaims(m)
    ensures Claimed(m, c)
  {
    var list := m.endDeviceList.value;
    InListed(list.href, EndDeviceList, EndDevice, list.pollRate, m.endDeviceList, m.endDevices, DeviceHref,
             DeviceClaimsIn(m), c);
    if c != Claim(list.href, ResourceLink(EndDeviceList, list.pollRate)) {
      var id :| && id in list.items && id in m.endDevices
                && ((DeviceHref(m.endDevices[id]) == Some(c.href) && c.link == ResourceLink(EndDevice, list.pollRate))
                    || c in DeviceClaims(m, m.endDevices[id]));
      var d := m.endDevices[id];
      assert d in Devices(m);
      if c in DeviceClaims(m, d) {
        DeviceClaimed(m, d, c);
      } else {
        assert DeviceHref(d) == Some(c.href) && c.href in DeviceHrefs(m);
      }
    }
  }

  lemma ClaimsAreClaimed(m: ModelState, c: Claim)
    requires c in AllClaims(m)
    ensures Claimed(m, c)
  {
    if c in EndDeviceClaims(m) { EndDeviceClaimed(m, c); }
  }

  // And back.

  lemma DeviceIncluded(m: ModelState, d: EndDeviceResource, c: Claim)
    requires d in Devices(m)
    requires c in DeviceClaims(m, d)
             || (d.href == Some(c.href) && c.link == ResourceLink(EndDevice, PollRateOf(m.endDeviceList)))
    ensures c in AllClaims(m)
  {
    var list := m.endDeviceList.value;
    InListed(list.href, EndDeviceList, EndDevice, list.pollRate, m.endDeviceList, m.endDevices, DeviceHref,
             DeviceClaimsIn(m), c);
    var id :| id in list.items && id in m.endDevices && m.endDevices[id] == d;
    assert DeviceHref(m.endDevices[id]) == d.href && DeviceClaimsIn(m)(m.endDevices[id]) == DeviceClaims(m, d);
  }

  lemma FsaListIncluded(m: ModelState, l: Href, c: Claim)
    requires l in FsaListHrefs(m) && c in FsaListClaims(m, l)
    ensures c in AllClaims(m)
  {
    var d :| d in Devices(m) && d.fsaListLink == Some(l);
    DeviceIncluded(m, d, c);
  }

  lemma ProgramListIncluded(m: ModelState, l: Href, c: Claim)
    requires l in ProgramListHrefs(m) && c in ProgramListClaims(m, l)
    ensures c in AllClaims(m)
  {
    var f :| f in Fsas(m) && f.programListLink == Some(l);
    var fl, id :| fl in FsaListHrefs(m) && fl in m.fsaLists && id in m.fsaLists[fl].items && id in m.fsas
                  && m.fsas[id] == f;
    var list := Get(m.fsaLists, fl);
    InListed(fl, FunctionSetAssignmentsList, FunctionSetAssignments, PollRateOf(list), list, m.fsas, FsaHref,
             FsaClaimsIn(m), c);
    assert c in FsaClaimsIn(m)(m.fsas[id]);
    FsaListIncluded(m, fl, c);
  }

  lemma ProgramIncluded(m: ModelState, l: Href, id: Mrid, c: Claim)
    requires ProgramAt(m, l, id)
    requires var p, rate := m.programs[id], m.programLists[l].pollRate;
             c in ProgramClaims(m, p, rate) || (p.href == Some(c.href) && c.link == ResourceLink(DERProgram, rate))
    ensures c in AllClaims(m)
  {
    var list := Get(m.programLists, l);
    InListed(l, DERProgramList, DERProgram, PollRateOf(list), list, m.programs, ProgramHref,
             ProgramClaimsAt(m, PollRateOf(list)), c);
    var p := m.programs[id];
    assert ProgramHref(p) == p.href && ProgramClaimsAt(m, PollRateOf(list))(p) == ProgramClaims(m, p, PollRateOf(list));
    ProgramListIncluded(m, l, c);
  }

  lemma ControlsIncluded(m: ModelState, l: Href, id: Mrid, list: Href, c: Claim)
    requires ProgramAt(m, l, id)
    requires var p, rate := m.programs[id], m.programLists[l].pollRate;
             || (p.controlListLink == Some(list) && c in ControlListClaims(m, list, rate))
             || (p.curveListLink == Some(list) && c in CurveListClaims(m, list, rate))
    ensures c in AllClaims(m)
  {
    ProgramIncluded(m, l, id, c);
  }

  lemma OfProgramsIncluded(m: ModelState, c: Claim)
    requires Claimed(m, c) && c.link.kind in {DERProgram, DefaultDERControl, DERControlList, DERCurveList}
    ensures c in AllClaims(m)
  {
    var rate := c.link.pollRate;
    match c.link.kind
    case DERProgram =>
      var l, id :| ProgramLinkAt(m, l, id, OwnHref, c.href, rate);
      ProgramIncluded(m, l, id, c);
    case DefaultDERControl =>
      var l, id :| ProgramLinkAt(m, l, id, DefaultLink, c.href, rate);
      assert c in Own(m.programs[id].defaultControlLink, ResourceLink(DefaultDERControl, rate));
      ProgramIncluded(m, l, id, c);
    case DERControlList =>
      var l, id :| ProgramLinkAt(m, l, id, ControlsLink, c.href, rate);
      InControlListClaims(m, c.href, rate, c);
      ControlsIncluded(m, l, id, c.href, c);
    case DERCurveList =>
      var l, id :| ProgramLinkAt(m, l, id, CurvesLink, c.href, rate);
      InCurveListClaims(m, c.href, rate, c);
      ControlsIncluded(m, l, id, c.href, c);
    case _ =>
  }

  lemma ItemsIncluded(m: ModelState, c: Claim)
    requires Claimed(m, c) && c.link.kind in {DERControl, DERCurve}
    ensures c in AllClaims(m)
  {
    var rate := c.link.pollRate;
    if c.link.kind == DERControl {
      var l, id, list, k :| && ProgramLinkAt(m, l, id, ControlsLink, list, rate) && list in m.controlLists
                            && k in m.controlLists[list].items && k in m.controls
                            && m.controls[k].control.href == Some(c.href);
      InControlListClaims(m, list, rate, c);
      ControlsIncluded(m, l, id, list, c);
    } else {
      var l, id, list, k :| && ProgramLinkAt(m, l, id, CurvesLink, list, rate) && list in m.curveLists
                            && k in m.curveLists[list].items && k in m.curves && m.curves[k].href == Some(c.href);
      InCurveListClaims(m, list, rate, c);
      ControlsIncluded(m, l, id, list, c);
    }
  }

  lemma AboveProgramsIncluded(m: ModelState, c: Claim)
    requires Claimed(m, c)
    requires c.link.kind in {DERProgramList, FunctionSetAssignmentsList, FunctionSetAssignments, DERList, EndDevice}
    ensures c in AllClaims(m)
  {
    match c.link.kind
    case DERProgramList => ProgramListIncluded(m, c.href, c);
    case FunctionSetAssignmentsList => FsaListIncluded(m, c.href, c);
    case FunctionSetAssignments =>
      var l, id :| && l in FsaListHrefs(m) && l in m.fsaLists && id in m.fsaLists[l].items && id in m.fsas
                   && m.fsas[id].href == Some(c.href) && c.link.pollRate == m.fsaLists[l].pollRate;
      var list := Get(m.fsaLists, l);
      InListed(l, FunctionSetAssignmentsList, FunctionSetAssignments, PollRateOf(list), list, m.fsas, FsaHref,
               FsaClaimsIn(m), c);
      assert FsaHref(m.fsas[id]) == Some(c.href);
      FsaListIncluded(m, l, c);
    case DERList =>
      var d :| d in Devices(m) && d.derListLink == Some(c.href);
      assert c in DerListClaims(m, d.derListLink);
      DeviceIncluded(m, d, c);
    case EndDevice =>
      var d :| d in Devices(m) && d.href == Some(c.href);
      DeviceIncluded(m, d, c);
    case _ =>
  }

  /** The traversal makes exactly the claims of the levels. */
  lemma ClaimsExactly(m: ModelState, c: Claim)
    ensures c in AllClaims(m) <==> Claimed(m, c)
  {
    if c in AllClaims(m) { ClaimsAreClaimed(m, c); }
    if Claimed(m, c) {
      match c.link.kind
      case Time =>
      case MirrorUsagePointList =>
      case EndDeviceList => EndDeviceListIncluded(m, c);
      case DERProgram => OfProgramsIncluded(m, c);
      case DefaultDERControl => OfProgramsIncluded(m, c);
      case DERControlList => OfProgramsIncluded(m, c);
      case DERCurveList => OfProgramsIncluded(m, c);
      case DERControl => ItemsIncluded(m, c);
      case DERCurve => ItemsIncluded(m, c);
      case _ => AboveProgramsIncluded(m, c);
    }
  }

  lemma EndDeviceListIncluded(m: ModelState, c: Claim)
    requires Claimed(m, c) && c.link.kind == EndDeviceList
    ensures c in AllClaims(m)
  {
    if m.endDeviceList.Some? && c == Claim(m.endDeviceList.value.href,
                                           ResourceLink(EndDeviceList, m.endDeviceList.value.pollRate)) {
      assert c == EndDeviceClaims(m)[0];
    }
  }

  // What each link says.

  /** This is the last claim on its href. */
  ghost predicate LastClaim(claims: seq<Claim>, c: Claim) {
    exists i :: 0 <= i < |claims| && claims[i] == c && forall j :: i < j < |claims| ==> claims[j].href != c.href
  }

  lemma LastClaimBefore(claims: seq<Claim>, c: Claim)
    requires claims != [] && claims[|claims| - 1].href != c.href && LastClaim(claims[..|claims| - 1], c)
    ensures LastClaim(claims, c)
  {
    var head := claims[..|claims| - 1];
    var i :| 0 <= i < |head| && head[i] == c && forall j :: i < j < |head| ==> head[j].href != c.href;
    assert claims[i] == c;
    forall j | i < j < |claims| ensures claims[j].href != c.href {
      if j < |head| { assert claims[j] == head[j]; }
    }
  }

  lemma {:induction false} CollectedLast(claims: seq<Claim>, h: Href)
    ensures h in Collected(claims) <==> exists c :: c in claims && c.href == h
    ensures h in Collected(claims) ==> LastClaim(claims, Claim(h, Collected(claims)[h]))
  {
    if claims != [] {
      var n := |claims| - 1;
      CollectedLast(claims[..n], h);
      assert claims == claims[..n] + [claims[n]];
      if claims[n].href != h && h in Collected(claims[..n]) {
        LastClaimBefore(claims, Claim(h, Collected(claims[..n])[h]));
      }
    }
  }

  /**
   An href is linked exactly if some level claims it, and its kind and rate are those of a claim: of the last one
   in the order in which the model is traversed.
   */
  lemma LinkIsLastClaim(m: ModelState, h: Href)
    ensures h in Links(m) <==> exists link :: Claimed(m, Claim(h, link))
    ensures h in Links(m) ==> Claimed(m, Claim(h, Links(m)[h])) && LastClaim(AllClaims(m), Claim(h, Links(m)[h]))
  {
    LinksAreCollected(m);
    CollectedLast(AllClaims(m), h);
    if h in Links(m) {
      ClaimsExactly(m, Claim(h, Links(m)[h]));
    }
    if link :| Claimed(m, Claim(h, link)) {
      ClaimsExactly(m, Claim(h, link));
    }
  }

  /** So an href on which all claims agree has what they say. */
  lemma OnlyClaimHolds(m: ModelState, h: Href, link: ResourceLink)
    requires Claimed(m, Claim(h, link))
    requires forall other :: Claimed(m, Claim(h, other)) ==> other == link
    ensures h in Links(m) && Links(m)[h] == link
  {
    LinkIsLastClaim(m, h);
  }
}
