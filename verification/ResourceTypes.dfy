/** The IEEE 2030.5 resources the bridge stores, cut down to the fields its logic reads. */
module ResourceTypes {
  import opened Wrappers

  type Href = string
  type Lfdi = nat
  type Mrid = nat
  type Seconds = int

  datatype ResourceKind =
    | Time
    | EndDeviceList
    | EndDevice
    | FunctionSetAssignmentsList
    | FunctionSetAssignments
    | DERProgramList
    | DERProgram
    | DefaultDERControl
    | DERControlList
    | DERControl
    | DERCurveList
    | DERCurve
    | DERList
    | MirrorUsagePointList

  /** What the model needs to know about a resource to keep it up to date. */
  datatype ResourceLink = ResourceLink(kind: ResourceKind, pollRate: Option<nat>)

  type ResourceLinks = map<Href, ResourceLink>

  /** A list resource as received from the server. */
  datatype ListResource<T> = ListResource(href: Option<Href>, pollRate: Option<nat>, items: seq<T>)

  /** A list resource as stored: the ids of its items only. */
  datatype IDList<K> = IDList(href: Href, items: seq<K>, pollRate: Option<nat>)

  datatype DeviceCapability = DeviceCapability(
    timeLink: Option<Href>,
    endDeviceListLink: Option<Href>,
    mirrorUsagePointListLink: Option<Href>)

  datatype TimeResource = TimeResource(pollRate: Option<nat>)

  datatype EndDeviceResource = EndDeviceResource(
    lfdi: Option<Lfdi>,
    href: Option<Href>,
    fsaListLink: Option<Href>,
    derListLink: Option<Href>)

  datatype FsaResource = FsaResource(mrid: Mrid, href: Option<Href>, programListLink: Option<Href>)

  datatype ProgramResource = ProgramResource(
    mrid: Mrid,
    href: Option<Href>,
    primacy: nat,
    defaultControlLink: Option<Href>,
    controlListLink: Option<Href>,
    curveListLink: Option<Href>)

  datatype EventStatusType = Scheduled | Active | Cancelled | Superseded | OtherStatus(code: nat)

  datatype ResponseRequired = ResponseRequired(messageReceived: bool, specificResponse: bool)

  datatype AttributeValue = Number(number: int) | CurveLink(href: Href)

  /** Attributes that scheduled and default controls both carry. */
  type BaseAttributes = map<string, AttributeValue>
  /** The `set_*` attributes, which only default controls carry. */
  type SettingAttributes = map<string, int>

  datatype ControlResource = ControlResource(
    mrid: Mrid,
    href: Option<Href>,
    currentStatus: EventStatusType,
    creationTime: Seconds,
    intervalStart: Seconds,
    intervalDuration: nat,
    randomizeStart: Option<int>,
    randomizeDuration: Option<int>,
    responseRequired: Option<ResponseRequired>,
    replyTo: Option<Href>,
    base: BaseAttributes)
  {
    /** The control asks to be acknowledged, and says where. */
    predicate AsksToAcknowledge() {
      responseRequired.Some? && responseRequired.value.messageReceived && replyTo.Some?
    }

    /** The control asks to be told of its start, its end and a change of status, and says where. */
    predicate AsksToReport() {
      responseRequired.Some? && responseRequired.value.specificResponse && replyTo.Some?
    }
  }

  /** A control with its realised interval, which includes any randomisation. */
  datatype ScheduledControl = ScheduledControl(control: ControlResource, startTime: Seconds, duration: nat) {

    function EndTime(): Seconds {
      startTime + duration
    }
  }

  datatype DefaultControlResource = DefaultControlResource(
    href: Option<Href>,
    base: BaseAttributes,
    settings: SettingAttributes)

  datatype CurveResource = CurveResource(mrid: Mrid, href: Option<Href>, curveData: seq<(int, int)>)

  datatype DerListResource = DerListResource(href: Option<Href>, pollRate: Option<nat>)

  datatype MirrorUsagePoint = MirrorUsagePoint(deviceLfdi: Lfdi, postRate: Option<nat>)

  datatype MupListResource = MupListResource(
    href: Option<Href>,
    pollRate: Option<nat>,
    mirrorUsagePoints: seq<MirrorUsagePoint>)

  datatype ResponseStatus = EventReceived | EventStarted | EventCompleted | EventCancelled | EventSuperseded

  datatype PostRates = PostRates(der: Option<nat>, mirrorUsagePoint: Option<nat>)

  /** The attributes to apply to the device, with the data of any curves they link to. */
  datatype ControlAttributes = ControlAttributes(
    base: BaseAttributes,
    settings: SettingAttributes,
    curves: map<Href, CurveResource>)

  /** What the scheduler announces to the other tasks. */
  datatype Event =
    | LinkAddedOrUpdated(href: Href, kind: ResourceKind, pollRate: Option<nat>)
    | LinkRemoved(href: Href, kind: ResourceKind)
    | ParametersChanged(attributes: ControlAttributes)
    | DERControlStatusChanged(subject: Mrid, status: ResponseStatus, replyTo: Href)
    | PostRatesChanged(postRates: PostRates)

  /** A resource received from the server. */
  datatype Update =
    | DeviceCapabilityUpdate(dcap: DeviceCapability)
    | TimeUpdate(time: TimeResource)
    | EndDeviceListUpdate(endDevices: ListResource<EndDeviceResource>)
    | FsaListUpdate(fsas: ListResource<FsaResource>)
    | ProgramListUpdate(programs: ListResource<ProgramResource>)
    | DefaultControlUpdate(defaultControl: DefaultControlResource)
    | ControlListUpdate(controls: ListResource<ControlResource>)
    | CurveListUpdate(curves: ListResource<CurveResource>)
    | DerListUpdate(derList: DerListResource)
    | MupListUpdate(mupList: MupListResource)

  /** The model as a value: one field for each field of the class in Sep2Model. */
  datatype ModelState = ModelState(
    time: TimeResource,
    fsaLists: map<Href, IDList<Mrid>>,
    programLists: map<Href, IDList<Mrid>>,
    controlLists: map<Href, IDList<Mrid>>,
    curveLists: map<Href, IDList<Mrid>>,
    endDeviceList: Option<IDList<Lfdi>>,
    dcap: Option<DeviceCapability>,
    mupList: Option<MupListResource>,
    derLists: map<Href, DerListResource>,
    endDevices: map<Lfdi, EndDeviceResource>,
    fsas: map<Mrid, FsaResource>,
    programs: map<Mrid, ProgramResource>,
    controls: map<Mrid, ScheduledControl>,
    curves: map<Mrid, CurveResource>,
    defaultControls: map<Href, DefaultControlResource>)

  const EMPTY_MODEL := ModelState(
                         TimeResource(None), map[], map[], map[], map[], None, None, None, map[], map[], map[], map[],
                         map[], map[], map[])
}
