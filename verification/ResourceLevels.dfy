/**
 What the model holds on each level, found by following links from the EndDeviceList, as sets: without poll rates,
 kinds or order. This is an independent account of which resources the model needs.
 */
module ResourceLevels {
  import opened Wrappers
  import opened ResourceTypes

  ghost function Devices(m: ModelState): set<EndDeviceResource> {
    if m.endDeviceList.None? then {} else
    set id | id in m.endDeviceList.value.items && id in m.endDevices :: m.endDevices[id]
  }

  ghost function DerListHrefs(m: ModelState): set<Href> {
    set d | d in Devices(m) && d.derListLink.Some? :: d.derListLink.value
  }

  ghost function FsaListHrefs(m: ModelState): set<Href> {
    set d | d in Devices(m) && d.fsaListLink.Some? :: d.fsaListLink.value
  }

  ghost function Fsas(m: ModelState): set<FsaResource> {
    set l, id | l in FsaListHrefs(m) && l in m.fsaLists && id in m.fsaLists[l].items && id in m.fsas :: m.fsas[id]
  }

  ghost function ProgramListHrefs(m: ModelState): set<Href> {
    set f | f in Fsas(m) && f.programListLink.Some? :: f.programListLink.value
  }

  ghost function Programs(m: ModelState): set<ProgramResource> {
    set l, id | l in ProgramListHrefs(m) && l in m.programLists && id in m.programLists[l].items
                && id in m.programs :: m.programs[id]
  }

  ghost function DefaultControlHrefs(m: ModelState): set<Href> {
    set p | p in Programs(m) && p.defaultControlLink.Some? :: p.defaultControlLink.value
  }

  ghost function ControlListHrefs(m: ModelState): set<Href> {
    set p | p in Programs(m) && p.controlListLink.Some? :: p.controlListLink.value
  }

  ghost function CurveListHrefs(m: ModelState): set<Href> {
    set p | p in Programs(m) && p.curveListLink.Some? :: p.curveListLink.value
  }

  ghost function Controls(m: ModelState): set<ScheduledControl> {
    set l, id | l in ControlListHrefs(m) && l in m.controlLists && id in m.controlLists[l].items
                && id in m.controls :: m.controls[id]
  }

  ghost function Curves(m: ModelState): set<CurveResource> {
    set l, id | l in CurveListHrefs(m) && l in m.curveLists && id in m.curveLists[l].items
                && id in m.curves :: m.curves[id]
  }

  ghost function DeviceHrefs(m: ModelState): set<Href> {
    set d | d in Devices(m) && d.href.Some? :: d.href.value
  }

  ghost function FsaHrefs(m: ModelState): set<Href> {
    set f | f in Fsas(m) && f.href.Some? :: f.href.value
  }

  ghost function ProgramHrefs(m: ModelState): set<Href> {
    set p | p in Programs(m) && p.href.Some? :: p.href.value
  }

  ghost function ControlHrefs(m: ModelState): set<Href> {
    set c | c in Controls(m) && c.control.href.Some? :: c.control.href.value
  }

  ghost function CurveHrefs(m: ModelState): set<Href> {
    set c | c in Curves(m) && c.href.Some? :: c.href.value
  }

  ghost function OptionSet(link: Option<Href>): set<Href> {
    if link.Some? then {link.value} else {}
  }

  ghost function EntryHrefs(m: ModelState): set<Href> {
    (if m.dcap.None? then {} else
     OptionSet(m.dcap.value.timeLink) + OptionSet(m.dcap.value.endDeviceListLink)
     + OptionSet(m.dcap.value.mirrorUsagePointListLink))
    + (if m.endDeviceList.None? then {} else {m.endDeviceList.value.href})
  }

  /** Every href the model needs: of stored and of not yet received resources. */
  ghost predicate Marked(m: ModelState, h: Href) {
    || h in EntryHrefs(m)
    || h in DeviceHrefs(m) || h in DerListHrefs(m)
    || h in FsaListHrefs(m) || h in FsaHrefs(m)
    || BelowPrograms(m, h)
  }

  ghost predicate BelowPrograms(m: ModelState, h: Href) {
    || h in ProgramListHrefs(m) || h in ProgramHrefs(m)
    || h in DefaultControlHrefs(m)
    || h in ControlListHrefs(m) || h in ControlHrefs(m)
    || h in CurveListHrefs(m) || h in CurveHrefs(m)
  }

  /** The model needs the href as a resource of this kind. */
  ghost predicate OnLevel(m: ModelState, h: Href, kind: ResourceKind) {
    match kind
    case Time => m.dcap.Some? && m.dcap.value.timeLink == Some(h)
    case EndDeviceList =>
      || (m.dcap.Some? && m.dcap.value.endDeviceListLink == Some(h))
      || (m.endDeviceList.Some? && m.endDeviceList.value.href == h)
    case MirrorUsagePointList => m.dcap.Some? && m.dcap.value.mirrorUsagePointListLink == Some(h)
    case EndDevice => h in DeviceHrefs(m)
    case DERList => h in DerListHrefs(m)
    case FunctionSetAssignmentsList => h in FsaListHrefs(m)
    case FunctionSetAssignments => h in FsaHrefs(m)
    case DERProgramList => h in ProgramListHrefs(m)
    case DERProgram => h in ProgramHrefs(m)
    case DefaultDERControl => h in DefaultControlHrefs(m)
    case DERControlList => h in ControlListHrefs(m)
    case DERControl => h in ControlHrefs(m)
    case DERCurveList => h in CurveListHrefs(m)
    case DERCurve => h in CurveHrefs(m)
  }

  lemma OnLevelIsMarked(m: ModelState, h: Href, kind: ResourceKind)
    requires OnLevel(m, h, kind)
    ensures Marked(m, h)
  {
  }

  /** Every marked href is on some level. */
  lemma LevelOf(m: ModelState, h: Href) returns (kind: ResourceKind)
    requires Marked(m, h)
    ensures OnLevel(m, h, kind)
  {
    if BelowPrograms(m, h) {
      kind := LevelBelowPrograms(m, h);
    } else if h in DeviceHrefs(m) {
      kind := EndDevice;
    } else if h in DerListHrefs(m) {
      kind := DERList;
    } else if h in FsaListHrefs(m) {
      kind := FunctionSetAssignmentsList;
    } else if h in FsaHrefs(m) {
      kind := FunctionSetAssignments;
    } else if m.dcap.Some? && m.dcap.value.timeLink == Some(h) {
      kind := Time;
    } else if m.dcap.Some? && m.dcap.value.mirrorUsagePointListLink == Some(h) {
      kind := MirrorUsagePointList;
    } else {
      kind := EndDeviceList;
    }
  }

  lemma LevelBelowPrograms(m: ModelState, h: Href) returns (kind: ResourceKind)
    requires BelowPrograms(m, h)
    ensures OnLevel(m, h, kind)
  {
    if h in ProgramListHrefs(m) {
      kind := DERProgramList;
    } else if h in ProgramHrefs(m) {
      kind := DERProgram;
    } else if h in DefaultControlHrefs(m) {
      kind := DefaultDERControl;
    } else if h in ControlListHrefs(m) {
      kind := DERControlList;
    } else if h in CurveListHrefs(m) {
      kind := DERCurveList;
    } else if h in ControlHrefs(m) {
      kind := DERControl;
    } else {
      kind := DERCurve;
    }
  }
}
