/**
 The graph of resources reachable from the entry point, and the sweep of what is not in it.

 A BTreeMap collected from an iterator keeps the last entry of each key, so chaining iterators and
 collecting them is the right-biased union `+` of maps.
 */
module ResourceGraph {
  import opened Wrappers
  import opened ResourceTypes

  /** The items of a list that the model has received, in list order. */
  function Lookup<K, V>(ids: seq<K>, items: map<K, V>): (r: seq<V>)
  {
    if ids == [] then []
    else if ids[0] in items then [items[ids[0]]] + Lookup(ids[1..], items)
    else Lookup(ids[1..], items)
  }

  function ListItems<K, V>(list: Option<IDList<K>>, items: map<K, V>): seq<V> {
    match list
    case None => []
    case Some(list) => Lookup(list.items, items)
  }

  function Get<V>(m: map<Href, V>, href: Href): Option<V> {
    if href in m then Some(m[href]) else None
  }

  function ItemsLinks<T>(
    itemKind: ResourceKind, pollRate: Option<nat>, items: seq<T>,
    hrefOf: T -> Option<Href>, itemLinks: T -> ResourceLinks): ResourceLinks
  {
    if items == [] then map[] else
    var own := match hrefOf(items[0])
      case None => map[]
      case Some(href) => map[href := ResourceLink(itemKind, pollRate)];
    own + itemLinks(items[0]) + ItemsLinks(itemKind, pollRate, items[1..], hrefOf, itemLinks)
  }

  /** What one list needs: itself, the items found, and whatever hangs below them. */
  function ListLinks<T>(
    href: Href, kind: ResourceKind, itemKind: ResourceKind, pollRate: Option<nat>, items: seq<T>,
    hrefOf: T -> Option<Href>, itemLinks: T -> ResourceLinks): ResourceLinks
  {
    map[href := ResourceLink(kind, pollRate)] + ItemsLinks(itemKind, pollRate, items, hrefOf, itemLinks)
  }

  function NoLinks<T>(): T -> ResourceLinks {
    _ => map[]
  }

  function DeviceHref(device: EndDeviceResource): Option<Href> { device.href }

  function FsaHref(fsa: FsaResource): Option<Href> { fsa.href }

  function ProgramHref(program: ProgramResource): Option<Href> { program.href }

  function ControlHref(control: ScheduledControl): Option<Href> { control.control.href }

  function CurveHref(curve: CurveResource): Option<Href> { curve.href }

  function DefaultControlHref(control: DefaultControlResource): Option<Href> { control.href }

  function LinkIfAny(link: Option<Href>, kind: ResourceKind, pollRate: Option<nat>): ResourceLinks {
    match link
    case None => map[]
    case Some(href) => map[href := ResourceLink(kind, pollRate)]
  }

  function ControlListLinks(m: ModelState, href: Href, pollRate: Option<nat>): ResourceLinks {
    ListLinks(href, DERControlList, DERControl, pollRate, ListItems(Get(m.controlLists, href), m.controls),
              ControlHref, NoLinks())
  }

  function CurveListLinks(m: ModelState, href: Href, pollRate: Option<nat>): ResourceLinks {
    ListLinks(href, DERCurveList, DERCurve, pollRate, ListItems(Get(m.curveLists, href), m.curves),
              CurveHref, NoLinks())
  }

  function ProgramLinks(m: ModelState, program: ProgramResource, pollRate: Option<nat>): ResourceLinks {
    LinkIfAny(program.defaultControlLink, DefaultDERControl, pollRate)
    + (match program.controlListLink
       case None => map[]
       case Some(href) => ControlListLinks(m, href, pollRate))
    + (match program.curveListLink
       case None => map[]
       case Some(href) => CurveListLinks(m, href, pollRate))
  }

  function ProgramLinksAt(m: ModelState, pollRate: Option<nat>): ProgramResource -> ResourceLinks {
    program => ProgramLinks(m, program, pollRate)
  }

  function PollRateOf<K>(list: Option<IDList<K>>): Option<nat> {
    match list
    case None => None
    case Some(list) => list.pollRate
  }

  /** Everything below a DERProgramList uses its poll rate, unknown until the list is received. */
  function ProgramListLinks(m: ModelState, href: Href): ResourceLinks {
    var list := Get(m.programLists, href);
    ListLinks(href, DERProgramList, DERProgram, PollRateOf(list), ListItems(list, m.programs),
              ProgramHref, ProgramLinksAt(m, PollRateOf(list)))
  }

  function FsaLinks(m: ModelState, fsa: FsaResource): ResourceLinks {
    match fsa.programListLink
    case None => map[]
    case Some(href) => ProgramListLinks(m, href)
  }

  function FsaLinksIn(m: ModelState): FsaResource -> ResourceLinks {
    fsa => FsaLinks(m, fsa)
  }

  function FsaListLinks(m: ModelState, href: Href): ResourceLinks {
    var list := Get(m.fsaLists, href);
    ListLinks(href, FunctionSetAssignmentsList, FunctionSetAssignments, PollRateOf(list), ListItems(list, m.fsas),
              FsaHref, FsaLinksIn(m))
  }

  function DeviceLinks(m: ModelState, device: EndDeviceResource): ResourceLinks {
    (match device.fsaListLink
     case None => map[]
     case Some(href) => FsaListLinks(m, href))
    + (match device.derListLink
       case None => map[]
       case Some(href) =>
         map[href := ResourceLink(DERList, if href in m.derLists then m.derLists[href].pollRate else None)])
  }

  function DeviceLinksIn(m: ModelState): EndDeviceResource -> ResourceLinks {
    device => DeviceLinks(m, device)
  }

  function EndDeviceLinks(m: ModelState): ResourceLinks {
    match m.endDeviceList
    case None => map[]
    case Some(list) =>
      ListLinks(list.href, EndDeviceList, EndDevice, list.pollRate, ListItems(Some(list), m.endDevices),
                DeviceHref, DeviceLinksIn(m))
  }

  /** The entry point names the hrefs; the poll rates come from the resources themselves. */
  function DcapLinks(m: ModelState): ResourceLinks {
    match m.dcap
    case None => map[]
    case Some(dcap) => EntryLinks(dcap, m.time.pollRate, PollRateOf(m.endDeviceList), MupListPollRate(m))
  }

  function EntryLinks(
    dcap: DeviceCapability, timeRate: Option<nat>, endDeviceListRate: Option<nat>,
    mupListRate: Option<nat>): ResourceLinks
  {
    LinkIfAny(dcap.timeLink, Time, timeRate)
    + LinkIfAny(dcap.endDeviceListLink, EndDeviceList, endDeviceListRate)
    + LinkIfAny(dcap.mirrorUsagePointListLink, MirrorUsagePointList, mupListRate)
  }

  function MupListPollRate(m: ModelState): Option<nat> {
    match m.mupList
    case None => None
    case Some(list) => list.pollRate
  }

  /** The hrefs to poll, with kind and rate; the EndDevice side wins over the entry point. */
  function Links(m: ModelState): ResourceLinks {
    DcapLinks(m) + EndDeviceLinks(m)
  }

  /** Equal hrefs and kinds, and equal poll rates except on a MirrorUsagePointList. */
  ghost predicate SameButMupRate(a: ResourceLinks, b: ResourceLinks) {
    && a.Keys == b.Keys
    && forall h :: h in a ==> a[h].kind == b[h].kind && (a[h].kind != MirrorUsagePointList ==> a[h] == b[h])
  }

  // The sweep.

  predicate Tracked(href: Option<Href>, tracked: set<Href>) {
    href.Some? && href.value in tracked
  }

  function RetainKeys<V>(m: map<Href, V>, tracked: set<Href>): map<Href, V> {
    map k | k in m && k in tracked :: m[k]
  }

  function RetainTracked<K, V>(m: map<K, V>, hrefOf: V -> Option<Href>, tracked: set<Href>): map<K, V> {
    map k | k in m && Tracked(hrefOf(m[k]), tracked) :: m[k]
  }

  /** Drops every stored resource that is not among the tracked hrefs. */
  function Sweep(m: ModelState, tracked: set<Href>): ModelState {
    m.(
    fsaLists := RetainKeys(m.fsaLists, tracked),
    programLists := RetainKeys(m.programLists, tracked),
    controlLists := RetainKeys(m.controlLists, tracked),
    curveLists := RetainKeys(m.curveLists, tracked),
    derLists := RetainKeys(m.derLists, tracked),
    mupList := if m.mupList.Some? && !Tracked(m.mupList.value.href, tracked) then None else m.mupList,
    endDevices := RetainTracked(m.endDevices, DeviceHref, tracked),
    fsas := RetainTracked(m.fsas, FsaHref, tracked),
    programs := RetainTracked(m.programs, ProgramHref, tracked),
    controls := RetainTracked(m.controls, ControlHref, tracked),
    curves := RetainTracked(m.curves, CurveHref, tracked),
    defaultControls := RetainTracked(m.defaultControls, DefaultControlHref, tracked)
    )
  }
}
