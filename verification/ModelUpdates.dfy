/** Merging a received resource into the model, as functions over model values. */
module ModelUpdates {
  import opened Wrappers
  import opened ResourceTypes
  import opened ResourceGraph
  import opened LinkEvents

  /** The two random shifts drawn when a control is first seen. */
  datatype Draw = Draw(startShift: int, durationShift: int)

  /** The clock and the random numbers during one update; `draw(i)` belongs to item i of a list. */
  datatype Env = Env(now: Seconds, draw: nat -> Draw)

  // Stored lists.

  function Ids<K, V>(items: seq<V>, idOf: V -> K): (ids: seq<K>)
    ensures |ids| == |items|
    ensures forall i :: 0 <= i < |items| ==> ids[i] == idOf(items[i])
  {
    seq(|items|, i requires 0 <= i < |items| => idOf(items[i]))
  }

  /** Inserts items one after the other, so that the last of several with the same id stays. */
  function InsertAll<K, V>(stored: map<K, V>, items: seq<V>, idOf: V -> K): map<K, V> {
    if items == [] then stored else
    var last := items[|items| - 1];
    InsertAll(stored, items[..|items| - 1], idOf)[idOf(last) := last]
  }

  function FsaId(fsa: FsaResource): Mrid { fsa.mrid }

  function ProgramId(program: ProgramResource): Mrid { program.mrid }

  function ControlId(control: ControlResource): Mrid { control.mrid }

  function CurveId(curve: CurveResource): Mrid { curve.mrid }

  /** Devices without an LFDI are left out of the list and ignored. */
  function DevicesWithLfdi(devices: seq<EndDeviceResource>): seq<EndDeviceResource> {
    if devices == [] then [] else
    var last := devices[|devices| - 1];
    DevicesWithLfdi(devices[..|devices| - 1]) + (if last.lfdi.Some? then [last] else [])
  }

  function DeviceId(device: EndDeviceResource): Lfdi {
    device.lfdi.UnwrapOr(0)
  }

  // Controls.

  /** The reply address, if the control gives one and asks for this kind of response. */
  function ReplyToIfRequired(control: ControlResource, specificResponse: bool): Option<Href> {
    match control.responseRequired
    case None => None
    case Some(required) =>
      if (if specificResponse then required.specificResponse else required.messageReceived) then control.replyTo
      else None
  }

  function ResponseIfRequired(control: ControlResource, specificResponse: bool, status: ResponseStatus): seq<Event> {
    match ReplyToIfRequired(control, specificResponse)
    case None => []
    case Some(replyTo) => [DERControlStatusChanged(control.mrid, status, replyTo)]
  }

  /** `as u32` after flooring at zero: wraps above the largest u32. */
  function RealisedDuration(duration: nat, shift: int): nat {
    var shifted := duration + shift;
    if shifted < 0 then 0 else shifted % 0x1_0000_0000
  }

  function Realise(control: ControlResource, draw: Draw): ScheduledControl {
    ScheduledControl(control, control.intervalStart + draw.startShift,
                     RealisedDuration(control.intervalDuration, draw.durationShift))
  }

  predicate AlreadyStarted(control: ScheduledControl, now: Seconds) {
    && control.control.currentStatus == Active
    && control.startTime <= now
    && control.EndTime() > now
  }

  /** The response owed when a stored control arrives again with a new status. */
  function StatusChangeEvents(prior: EventStatusType, incoming: ControlResource): seq<Event> {
    if incoming.currentStatus == prior then []
    else match incoming.currentStatus
         case Cancelled => ResponseIfRequired(incoming, true, EventCancelled)
         case Superseded => ResponseIfRequired(incoming, true, EventSuperseded)
         case _ => []
  }

  function ArrivalEvents(control: ScheduledControl, now: Seconds): seq<Event> {
    ResponseIfRequired(control.control, false, EventReceived)
    + (if AlreadyStarted(control, now) then ResponseIfRequired(control.control, true, EventStarted) else [])
  }

  /** A known control keeps its realised interval; a new one has it drawn. */
  function SetControl(
    controls: map<Mrid, ScheduledControl>, incoming: ControlResource, draw: Draw,
    now: Seconds): (map<Mrid, ScheduledControl>, seq<Event>)
  {
    var mrid := incoming.mrid;
    if mrid in controls then
      (controls[mrid := controls[mrid].(control := incoming)],
       StatusChangeEvents(controls[mrid].control.currentStatus, incoming))
    else
      (controls[mrid := Realise(incoming, draw)], ArrivalEvents(Realise(incoming, draw), now))
  }

  function SetControls(
    controls: map<Mrid, ScheduledControl>, incoming: seq<ControlResource>,
    env: Env): (map<Mrid, ScheduledControl>, seq<Event>)
  {
    if incoming == [] then (controls, []) else
    var n := |incoming| - 1;
    var (before, events) := SetControls(controls, incoming[..n], env);
    var (after, more) := SetControl(before, incoming[n], env.draw(n), env.now);
    (after, events + more)
  }

  // One update.

  function SetEndDeviceList(m: ModelState, list: ListResource<EndDeviceResource>): ModelState {
    match list.href
    case None => m
    case Some(href) =>
      var devices := DevicesWithLfdi(list.items);
      m.(endDeviceList := Some(IDList(href, Ids(devices, DeviceId), list.pollRate)),
      endDevices := InsertAll(m.endDevices, devices, DeviceId))
  }

  function SetFsaList(m: ModelState, list: ListResource<FsaResource>): ModelState {
    match list.href
    case None => m
    case Some(href) =>
      m.(fsaLists := m.fsaLists[href := IDList(href, Ids(list.items, FsaId), list.pollRate)],
      fsas := InsertAll(m.fsas, list.items, FsaId))
  }

  function SetProgramList(m: ModelState, list: ListResource<ProgramResource>): ModelState {
    match list.href
    case None => m
    case Some(href) =>
      m.(programLists := m.programLists[href := IDList(href, Ids(list.items, ProgramId), list.pollRate)],
      programs := InsertAll(m.programs, list.items, ProgramId))
  }

  function SetControlList(m: ModelState, list: ListResource<ControlResource>, env: Env): (ModelState, seq<Event>) {
    match list.href
    case None => (m, [])
    case Some(href) =>
      var (controls, events) := SetControls(m.controls, list.items, env);
      (m.(controlLists := m.controlLists[href := IDList(href, Ids(list.items, ControlId), None)],
       controls := controls), events)
  }

  function SetCurveList(m: ModelState, list: ListResource<CurveResource>): ModelState {
    match list.href
    case None => m
    case Some(href) =>
      m.(curveLists := m.curveLists[href := IDList(href, Ids(list.items, CurveId), None)],
      curves := InsertAll(m.curves, list.items, CurveId))
  }

  function SetDefaultControl(m: ModelState, control: DefaultControlResource): ModelState {
    match control.href
    case None => m
    case Some(href) => m.(defaultControls := m.defaultControls[href := control])
  }

  function SetDerList(m: ModelState, list: DerListResource): ModelState {
    match list.href
    case None => m
    case Some(href) => m.(derLists := m.derLists[href := list])
  }

  /** Merges the resource, before the sweep. */
  function Merge(m: ModelState, update: Update, env: Env): (ModelState, seq<Event>) {
    match update
    case DeviceCapabilityUpdate(dcap) => (m.(dcap := Some(dcap)), [])
    case TimeUpdate(time) => (m.(time := time), [])
    case EndDeviceListUpdate(list) => (SetEndDeviceList(m, list), [])
    case FsaListUpdate(list) => (SetFsaList(m, list), [])
    case ProgramListUpdate(list) => (SetProgramList(m, list), [])
    case DefaultControlUpdate(control) => (SetDefaultControl(m, control), [])
    case ControlListUpdate(list) => SetControlList(m, list, env)
    case CurveListUpdate(list) => (SetCurveList(m, list), [])
    case DerListUpdate(list) => (SetDerList(m, list), [])
    case MupListUpdate(list) => (m.(mupList := Some(list)), [])
  }

  function Merged(m: ModelState, update: Update, env: Env): ModelState {
    Merge(m, update, env).0
  }

  function ControlEvents(m: ModelState, update: Update, env: Env): seq<Event> {
    Merge(m, update, env).1
  }

  /** The model after an update: merged, then swept by its own links. */
  function Applied(m: ModelState, update: Update, env: Env): ModelState {
    Sweep(Merged(m, update, env), Links(Merged(m, update, env)).Keys)
  }

  /** Changes to the polled resources first, then any control responses. */
  function UpdateEvents(m: ModelState, update: Update, env: Env): seq<Event> {
    LinkEventsBetween(Links(m), Links(Merged(m, update, env))) + ControlEvents(m, update, env)
  }

  function RefreshEvents(m: ModelState): seq<Event> {
    LinkEventsBetween(map[], Links(m))
  }
}
