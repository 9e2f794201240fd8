/**
 The trip curve models (707 to 710) and the volt curve models (705, 706): their offsets, the writing of
 curves translated from a DERCurve, and what can be read from the device afterwards.
 */
module CurveModels {
  import opened CurveLayout
  import opened MachineInts
  import opened RegisterMemory
  import opened ScaledValues
  import opened Wrappers

  // From a DERCurve.

  datatype AxisOrder = Same | Flipped

  datatype DerCurve = DerCurve(points: seq<(i32, i32)>, xMultiplier: i16, yMultiplier: i16)

  datatype ConversionError = OutOfRange

  function Swap(p: (i32, i32)): (int, int) {
    (p.1, p.0)
  }

  /** The points in the device's axis order; an error if a coordinate does not fit its register type. */
  function ConvertCurve(input: DerCurve, order: AxisOrder, pt: PointLayout): (r: Result<CurveData, ConversionError>)
    ensures r.Ok? <==> forall p <- input.points :: pt.xType.Holds(Across(p, order)) && pt.yType.Holds(Up(p, order))
    ensures r.Ok? ==> |r.value.points| == |input.points| && Writable(pt, r.value.points)
    ensures r.Ok? ==> forall k :: 0 <= k < |input.points|
                                  ==> r.value.points[k] == (Across(input.points[k], order), Up(input.points[k], order))
    ensures r.Ok? ==> r.value.sfX == if order == Same then input.xMultiplier else input.yMultiplier
    ensures r.Ok? ==> r.value.sfY == if order == Same then input.yMultiplier else input.xMultiplier
  {
    match order
    case Same =>
      if Writable(pt, input.points) then Ok(CurveData(input.points, input.xMultiplier, input.yMultiplier))
      else Err(OutOfRange)
    case Flipped =>
      var swapped := seq(|input.points|, k requires 0 <= k < |input.points| => Swap(input.points[k]));
      assert forall k :: 0 <= k < |input.points|
                         ==> swapped[k] == Swap(input.points[k]) && input.points[k] in input.points;
      if Writable(pt, swapped) then Ok(CurveData(swapped, input.yMultiplier, input.xMultiplier)) else Err(OutOfRange)
  }

  /** The coordinate that becomes the device's x, and the one that becomes its y. */
  function Across(p: (i32, i32), order: AxisOrder): int {
    if order == Same then p.0 else p.1
  }

  function Up(p: (i32, i32), order: AxisOrder): int {
    if order == Same then p.1 else p.0
  }

  /** The number of points, capped at what a register can hold. */
  function Len(curve: CurveData): u16 {
    if |curve.points| < ADDRESSES then |curve.points| else ADDRESSES - 1
  }

  method WritePoint(regs: array<u16>, at: nat, pt: PointLayout, p: (int, int))
    requires pt.WellFormed() && at + pt.len <= regs.Length
    requires pt.xType.Holds(p.0) && pt.yType.Holds(p.1)
    modifies regs
    ensures regs[..] == PutPoint(old(regs[..]), at, pt, p)
  {
    WriteWords(regs, at + pt.xAt, Encode(pt.xType, p.0));
    WriteWords(regs, at + pt.yAt, Encode(pt.yType, p.1));
  }

  lemma NextPoint(mem: Memory, place: Place, points: RawPoints, i: nat)
    requires place.WellFormed() && Writable(place.pt, points)
    requires i < |points| && place.PointAddr(|points|) <= |mem|
    ensures place.PointAddr(i) + place.pt.len == place.PointAddr(i + 1) <= |mem|
    ensures PutPoints(mem, place, points[..i + 1])
         == PutPoint(PutPoints(mem, place, points[..i]), place.PointAddr(i), place.pt, points[i])
  {
    PointFits(place, i, |points|);
    PointFits(place, i, i + 1);
    assert place.pt.len * (i + 1) == place.pt.len * i + place.pt.len;
    assert points[..i + 1][..i] == points[..i];
  }

  /** Writes one curve, register by register. */
  method WriteCurve(regs: array<u16>, place: Place, points: RawPoints)
    requires place.WellFormed() && Writable(place.pt, points)
    requires place.PointAddr(|points|) <= regs.Length == ADDRESSES
    modifies regs
    ensures regs[..] == PutCurve(old(regs[..]), place, points)
  {
    PointCountFits(place, |points|);
    WriteWords(regs, place.addr + place.actPt, [|points|]);
    ghost var counted := regs[..];
    PointFitsAll(place, |points|);
    for i := 0 to |points|
      invariant place.PointAddr(i) <= regs.Length
      invariant regs[..] == PutPoints(counted, place, points[..i])
    {
      PointFits(place, i, |points|);
      WritePoint(regs, place.PointAddr(i), place.pt, points[i]);
      NextPoint(counted, place, points, i);
    }
    assert points[..|points|] == points;
  }

  // Trip curves.

  datatype TripCurve = MustTrip | MayTrip | MomCess

  const TARGET: u16 := 2

  datatype TripLayout = TripLayout(
    addr: nat, len: nat, adoptAt: nat, headerLen: nat, mustLen: nat, mayLen: nat, momLen: nat, actPt: nat,
    pt: PointLayout)
  {
    predicate WellFormed() {
      adoptAt < len && actPt < mustLen && actPt < mayLen && actPt < momLen && pt.WellFormed()
    }

    function StaticLen(curve: TripCurve): nat {
      match curve
      case MustTrip => mustLen
      case MayTrip => mayLen
      case MomCess => momLen
    }

    function CurveLen(curve: TripCurve, nPt: nat): nat {
      StaticLen(curve) + pt.len * nPt
    }

    function SetLen(nPt: nat): nat {
      headerLen + CurveLen(MustTrip, nPt) + CurveLen(MayTrip, nPt) + CurveLen(MomCess, nPt)
    }

    /** The offset of a set; sets are counted from 1. */
    function SetOffset(index: nat, nPt: nat): nat
      requires index >= 1
    {
      len + SetLen(nPt) * (index - 1)
    }

    function CurveOffset(curve: TripCurve, index: nat, nPt: nat): nat
      requires index >= 1
    {
      SetOffset(index, nPt) +
      match curve
      case MustTrip => headerLen
      case MayTrip => headerLen + CurveLen(MustTrip, nPt)
      case MomCess => headerLen + CurveLen(MustTrip, nPt) + CurveLen(MayTrip, nPt)
    }

    function At(curve: TripCurve, index: nat, nPt: nat): (place: Place)
      requires WellFormed() && index >= 1
      ensures place.WellFormed()
    {
      Place(addr + CurveOffset(curve, index, nPt), StaticLen(curve), actPt, pt)
    }

    /** Two sets fit in the address space. */
    predicate Fits(nPt: nat) {
      addr + SetOffset(TARGET + 1, nPt) <= ADDRESSES
    }
  }

  /**
   The first set follows the fixed part of the model. After a set's header its three curves follow one another
   without gaps, each with its own part and the points the device has room for, up to the next set.
   */
  lemma CurvesTileTheSet(layout: TripLayout, index: nat, nPt: nat)
    requires layout.WellFormed() && index >= 1
    ensures layout.SetOffset(1, nPt) == layout.len
    ensures layout.At(MustTrip, index, nPt).addr == layout.addr + layout.SetOffset(index, nPt) + layout.headerLen
    ensures layout.At(MayTrip, index, nPt).addr
         == layout.At(MustTrip, index, nPt).addr + layout.mustLen + layout.pt.len * nPt
    ensures layout.At(MomCess, index, nPt).addr
         == layout.At(MayTrip, index, nPt).addr + layout.mayLen + layout.pt.len * nPt
    ensures layout.addr + layout.SetOffset(index + 1, nPt)
         == layout.At(MomCess, index, nPt).addr + layout.momLen + layout.pt.len * nPt
    ensures layout.At(MustTrip, index, nPt).PointAddr(nPt) == layout.At(MayTrip, index, nPt).addr
    ensures layout.At(MayTrip, index, nPt).PointAddr(nPt) == layout.At(MomCess, index, nPt).addr
    ensures layout.At(MomCess, index, nPt).PointAddr(nPt) == layout.addr + layout.SetOffset(index + 1, nPt)
  {
    NextSet(layout.SetLen(nPt), index);
  }

  lemma NextSet(setLen: nat, index: nat)
    requires index >= 1
    ensures setLen * index == setLen * (index - 1) + setLen
  {
  }

  /** The curves the translation supplies, each optional. */
  datatype TripData = TripData(must: Option<CurveData>, may: Option<CurveData>, mom: Option<CurveData>) {

    function Of(curve: TripCurve): Option<CurveData> {
      match curve
      case MustTrip => must
      case MayTrip => may
      case MomCess => mom
    }

    predicate Holds(pt: PointLayout) {
      && (must.Some? ==> Writable(pt, must.value.points))
      && (may.Some? ==> Writable(pt, may.value.points))
      && (mom.Some? ==> Writable(pt, mom.value.points))
    }
  }

  /** Whether a curve is given and short enough for the device. */
  predicate Accepted(data: Option<CurveData>, nPt: nat) {
    data.Some? && |data.value.points| <= nPt
  }

  /** What is written to a device with the given capacity and scale factors. */
  datatype Capacity = Capacity(nSets: u16, nPt: u16, xSf: i16, ySf: i16)

  function TripWritten(mem: Memory, layout: TripLayout, curve: TripCurve, data: Option<CurveData>,
                       c: Capacity): (after: Memory)
    requires layout.WellFormed() && layout.Fits(c.nPt) && |mem| == ADDRESSES
    requires data.Some? ==> Writable(layout.pt, data.value.points)
    ensures |after| == |mem|
  {
    if Accepted(data, c.nPt) then
      RegionFits(layout, curve, |data.value.points|, c.nPt);
      PutCurve(mem, layout.At(curve, TARGET, c.nPt), Scaled(layout.pt, data.value, c.xSf, c.ySf))
    else mem
  }

  /** The region of every curve of the target set lies within the set. */
  lemma RegionFits(layout: TripLayout, curve: TripCurve, n: nat, nPt: nat)
    requires layout.WellFormed() && layout.Fits(nPt) && n <= nPt
    ensures layout.addr + layout.SetOffset(TARGET, nPt) <= layout.At(curve, TARGET, nPt).addr
    ensures layout.At(curve, TARGET, nPt).PointAddr(n) <= layout.At(curve, TARGET, nPt).PointAddr(nPt)
    ensures layout.At(curve, TARGET, nPt).PointAddr(nPt) <= layout.addr + layout.SetOffset(TARGET + 1, nPt) <= ADDRESSES
    ensures nPt < ADDRESSES - 1
  {
    CurvesTileTheSet(layout, TARGET, nPt);
    Ordered(n, nPt, layout.pt.len);
    if nPt > 0 { Ordered(1, layout.pt.len, nPt); }
  }

  function Adopted(mem: Memory, layout: TripLayout, data: TripData, c: Capacity): (after: Memory)
    requires layout.addr + layout.adoptAt < |mem|
    ensures |after| == |mem|
    ensures WritesAny(data, c) ==> Get(after, layout.addr + layout.adoptAt, 1) == [TARGET]
    ensures forall i :: 0 <= i < |mem| && !(WritesAny(data, c) && i == layout.addr + layout.adoptAt)
                        ==> after[i] == mem[i]
  {
    if WritesAny(data, c) then Put(mem, layout.addr + layout.adoptAt, [TARGET]) else mem
  }

  function AllTripWritten(mem: Memory, layout: TripLayout, data: TripData, c: Capacity): (after: Memory)
    requires layout.WellFormed() && layout.Fits(c.nPt) && |mem| == ADDRESSES && data.Holds(layout.pt)
    ensures |after| == |mem|
  {
    if c.nSets < TARGET then mem else
    var must := TripWritten(mem, layout, MustTrip, data.must, c);
    var may := TripWritten(must, layout, MayTrip, data.may, c);
    Adopted(TripWritten(may, layout, MomCess, data.mom, c), layout, data, c)
  }

  predicate WritesAny(data: TripData, c: Capacity) {
    c.nSets >= TARGET && (Accepted(data.must, c.nPt) || Accepted(data.may, c.nPt) || Accepted(data.mom, c.nPt))
  }

  method WriteTripCurve(regs: array<u16>, layout: TripLayout, curve: TripCurve, data: CurveData, c: Capacity)
    returns (wrote: bool)
    requires layout.WellFormed() && layout.Fits(c.nPt) && regs.Length == ADDRESSES && Writable(layout.pt, data.points)
    modifies regs
    ensures wrote == Accepted(Some(data), c.nPt)
    ensures regs[..] == TripWritten(old(regs[..]), layout, curve, Some(data), c)
  {
    RegionFits(layout, curve, 0, c.nPt);
    if Len(data) > c.nPt { return false; }
    RegionFits(layout, curve, |data.points|, c.nPt);
    WriteCurve(regs, layout.At(curve, TARGET, c.nPt), Scaled(layout.pt, data, c.xSf, c.ySf));
    return true;
  }

  /** Writes up to three curves and asks the device to adopt the set if any was written. */
  method WriteTripCurves(regs: array<u16>, layout: TripLayout, data: TripData, c: Capacity) returns (wroteAny: bool)
    requires layout.WellFormed() && layout.Fits(c.nPt) && regs.Length == ADDRESSES && data.Holds(layout.pt)
    modifies regs
    ensures wroteAny == WritesAny(data, c)
    ensures regs[..] == AllTripWritten(old(regs[..]), layout, data, c)
  {
    if (data.must.None? && data.may.None? && data.mom.None?) || c.nSets < TARGET { return false; }
    var wroteMust, wroteMay, wroteMom := false, false, false;
    if data.must.Some? { wroteMust := WriteTripCurve(regs, layout, MustTrip, data.must.value, c); }
    if data.may.Some? { wroteMay := WriteTripCurve(regs, layout, MayTrip, data.may.value, c); }
    if data.mom.Some? { wroteMom := WriteTripCurve(regs, layout, MomCess, data.mom.value, c); }
    wroteAny := wroteMust || wroteMay || wroteMom;
    if wroteAny { WriteWords(regs, layout.addr + layout.adoptAt, [TARGET]); }
  }

  /** What the device was asked to hold in the place of one curve. */
  function Raw(layout: TripLayout, data: Option<CurveData>, c: Capacity): RawPoints
    requires data.Some? ==> Writable(layout.pt, data.value.points)
  {
    if data.Some? then Scaled(layout.pt, data.value, c.xSf, c.ySf) else []
  }

  ghost predicate CurveShown(mem: Memory, layout: TripLayout, curve: TripCurve, data: Option<CurveData>, c: Capacity)
    requires layout.WellFormed() && layout.Fits(c.nPt) && |mem| == ADDRESSES
    requires data.Some? ==> Writable(layout.pt, data.value.points)
  {
    Accepted(data, c.nPt) ==> (
        RegionFits(layout, curve, |data.value.points|, c.nPt);
        Shows(mem, layout.At(curve, TARGET, c.nPt), Raw(layout, data, c)))
  }

  predicate InRegion(layout: TripLayout, curve: TripCurve, nPt: nat, i: int)
    requires layout.WellFormed()
  {
    layout.At(curve, TARGET, nPt).addr <= i < layout.At(curve, TARGET, nPt).PointAddr(nPt)
  }

  /** A register that writing an optional curve may change: its count or an active point of it. */
  predicate TripTouches(layout: TripLayout, curve: TripCurve, data: Option<CurveData>, nPt: nat, i: int)
    requires layout.WellFormed()
  {
    Accepted(data, nPt) && Touches(layout.At(curve, TARGET, nPt), |data.value.points|, i)
  }

  lemma TouchesWithinRegion(layout: TripLayout, curve: TripCurve, data: Option<CurveData>, nPt: nat, i: int)
    requires layout.WellFormed() && layout.Fits(nPt)
    requires TripTouches(layout, curve, data, nPt, i)
    ensures InRegion(layout, curve, nPt, i)
  {
    RegionFits(layout, curve, |data.value.points|, nPt);
    Ordered(0, nPt, layout.pt.len);
  }

  lemma TripCurveWritten(mem: Memory, layout: TripLayout, curve: TripCurve, data: Option<CurveData>, c: Capacity)
    requires layout.WellFormed() && layout.Fits(c.nPt) && |mem| == ADDRESSES
    requires data.Some? ==> Writable(layout.pt, data.value.points)
    ensures CurveShown(TripWritten(mem, layout, curve, data, c), layout, curve, data, c)
    ensures forall i :: 0 <= i < |mem| && !TripTouches(layout, curve, data, c.nPt, i)
                        ==> TripWritten(mem, layout, curve, data, c)[i] == mem[i]
  {
    if Accepted(data, c.nPt) {
      RegionFits(layout, curve, |data.value.points|, c.nPt);
      CurveIsShown(mem, layout.At(curve, TARGET, c.nPt), Raw(layout, data, c));
    }
  }

  ghost predicate SameRegion(before: Memory, after: Memory, layout: TripLayout, curve: TripCurve, nPt: nat)
    requires layout.WellFormed() && |before| == |after|
  {
    forall i :: 0 <= i < |before| && InRegion(layout, curve, nPt, i) ==> after[i] == before[i]
  }

  /** A curve survives whatever is written outside its region. */
  lemma CurveStaysShown(before: Memory, after: Memory, layout: TripLayout, curve: TripCurve, data: Option<CurveData>,
                        c: Capacity)
    requires layout.WellFormed() && layout.Fits(c.nPt) && |before| == |after| == ADDRESSES
    requires data.Some? ==> Writable(layout.pt, data.value.points)
    requires CurveShown(before, layout, curve, data, c) && SameRegion(before, after, layout, curve, c.nPt)
    ensures CurveShown(after, layout, curve, data, c)
  {
    if Accepted(data, c.nPt) {
      RegionFits(layout, curve, |data.value.points|, c.nPt);
      StaysShown(before, after, layout.At(curve, TARGET, c.nPt), Raw(layout, data, c));
    }
  }

  lemma RegionsAreDisjoint(layout: TripLayout, nPt: nat, i: int)
    requires layout.WellFormed() && layout.Fits(nPt)
    ensures InRegion(layout, MustTrip, nPt, i)
            ==> !InRegion(layout, MayTrip, nPt, i) && !InRegion(layout, MomCess, nPt, i)
    ensures InRegion(layout, MayTrip, nPt, i) ==> !InRegion(layout, MomCess, nPt, i)
    ensures forall curve :: InRegion(layout, curve, nPt, i) ==> i != layout.addr + layout.adoptAt
  {
    CurvesTileTheSet(layout, TARGET, nPt);
    RegionFits(layout, MustTrip, nPt, nPt);
    RegionFits(layout, MayTrip, nPt, nPt);
    RegionFits(layout, MomCess, nPt, nPt);
  }

  /** A register that the whole operation may change. */
  predicate AnyTouches(layout: TripLayout, data: TripData, c: Capacity, i: int)
    requires layout.WellFormed()
  {
    && WritesAny(data, c)
    && (i == layout.addr + layout.adoptAt || exists curve :: TripTouches(layout, curve, data.Of(curve), c.nPt, i))
  }

  /** Writing one curve leaves the region of another alone. */
  lemma StageKeeps(mem: Memory, layout: TripLayout, curve: TripCurve, other: TripCurve, data: Option<CurveData>,
                   c: Capacity)
    requires layout.WellFormed() && layout.Fits(c.nPt) && |mem| == ADDRESSES && other != curve
    requires data.Some? ==> Writable(layout.pt, data.value.points)
    ensures SameRegion(mem, TripWritten(mem, layout, curve, data, c), layout, other, c.nPt)
  {
    TripCurveWritten(mem, layout, curve, data, c);
    forall i | 0 <= i < |mem| && InRegion(layout, other, c.nPt, i) ensures !TripTouches(layout, curve, data, c.nPt, i) {
      RegionsAreDisjoint(layout, c.nPt, i);
      if TripTouches(layout, curve, data, c.nPt, i) { TouchesWithinRegion(layout, curve, data, c.nPt, i); }
    }
  }

  lemma AdoptKeeps(mem: Memory, layout: TripLayout, curve: TripCurve, data: TripData, c: Capacity)
    requires layout.WellFormed() && layout.Fits(c.nPt) && |mem| == ADDRESSES
    ensures SameRegion(mem, Adopted(mem, layout, data, c), layout, curve, c.nPt)
  {
    forall i | 0 <= i < |mem| && InRegion(layout, curve, c.nPt, i) ensures i != layout.addr + layout.adoptAt {
      RegionsAreDisjoint(layout, c.nPt, i);
    }
  }

  /** No register changes but the request to adopt and the counts and active points of accepted curves. */
  lemma TripFrame(mem: Memory, layout: TripLayout, data: TripData, c: Capacity)
    requires layout.WellFormed() && layout.Fits(c.nPt) && |mem| == ADDRESSES && data.Holds(layout.pt)
    ensures forall i :: 0 <= i < |mem| && !AnyTouches(layout, data, c, i)
                        ==> AllTripWritten(mem, layout, data, c)[i] == mem[i]
  {
    if c.nSets < TARGET { return; }
    var must := TripWritten(mem, layout, MustTrip, data.must, c);
    var may := TripWritten(must, layout, MayTrip, data.may, c);
    TripCurveWritten(mem, layout, MustTrip, data.must, c);
    TripCurveWritten(must, layout, MayTrip, data.may, c);
    TripCurveWritten(may, layout, MomCess, data.mom, c);
    forall i | 0 <= i < |mem| && !AnyTouches(layout, data, c, i)
      ensures AllTripWritten(mem, layout, data, c)[i] == mem[i]
    {
      assert !TripTouches(layout, MustTrip, data.Of(MustTrip), c.nPt, i);
      assert !TripTouches(layout, MayTrip, data.Of(MayTrip), c.nPt, i);
      assert !TripTouches(layout, MomCess, data.Of(MomCess), c.nPt, i);
    }
  }

  /**
   After writing, each accepted curve can be read from its own place in set 2, its points rescaled,
   and the device is asked to adopt the set exactly when one was accepted.
   */
  lemma TripCurvesAreShown(mem: Memory, layout: TripLayout, data: TripData, c: Capacity)
    requires layout.WellFormed() && layout.Fits(c.nPt) && |mem| == ADDRESSES && data.Holds(layout.pt)
    requires c.nSets >= TARGET
    ensures forall curve :: CurveShown(AllTripWritten(mem, layout, data, c), layout, curve, data.Of(curve), c)
    ensures var request := AllTripWritten(mem, layout, data, c)[layout.addr + layout.adoptAt];
            request == if WritesAny(data, c) then TARGET else mem[layout.addr + layout.adoptAt]
  {
    var must := TripWritten(mem, layout, MustTrip, data.must, c);
    var may := TripWritten(must, layout, MayTrip, data.may, c);
    var mom := TripWritten(may, layout, MomCess, data.mom, c);
    assert AllTripWritten(mem, layout, data, c) == Adopted(mom, layout, data, c);
    MustIsShown(mem, layout, data, c);
    MayIsShown(must, layout, data, c);
    MomIsShown(may, layout, data, c);
    if WritesAny(data, c) {
      assert Get(Adopted(mom, layout, data, c), layout.addr + layout.adoptAt, 1)[0] == TARGET;
    } else {
      TripFrame(mem, layout, data, c);
    }
    forall curve ensures CurveShown(AllTripWritten(mem, layout, data, c), layout, curve, data.Of(curve), c) {
      match curve
      case MustTrip =>
      case MayTrip =>
      case MomCess =>
    }
  }

  lemma MustIsShown(mem: Memory, layout: TripLayout, data: TripData, c: Capacity)
    requires layout.WellFormed() && layout.Fits(c.nPt) && |mem| == ADDRESSES && data.Holds(layout.pt)
    ensures var must := TripWritten(mem, layout, MustTrip, data.must, c);
            var may := TripWritten(must, layout, MayTrip, data.may, c);
            CurveShown(Adopted(TripWritten(may, layout, MomCess, data.mom, c), layout, data, c), layout, MustTrip,
                       data.must, c)
  {
    var must := TripWritten(mem, layout, MustTrip, data.must, c);
    var may := TripWritten(must, layout, MayTrip, data.may, c);
    var mom := TripWritten(may, layout, MomCess, data.mom, c);
    TripCurveWritten(mem, layout, MustTrip, data.must, c);
    StageKeeps(must, layout, MayTrip, MustTrip, data.may, c);
    CurveStaysShown(must, may, layout, MustTrip, data.must, c);
    StageKeeps(may, layout, MomCess, MustTrip, data.mom, c);
    CurveStaysShown(may, mom, layout, MustTrip, data.must, c);
    AdoptKeeps(mom, layout, MustTrip, data, c);
    CurveStaysShown(mom, Adopted(mom, layout, data, c), layout, MustTrip, data.must, c);
  }

  lemma MayIsShown(must: Memory, layout: TripLayout, data: TripData, c: Capacity)
    requires layout.WellFormed() && layout.Fits(c.nPt) && |must| == ADDRESSES && data.Holds(layout.pt)
    ensures var may := TripWritten(must, layout, MayTrip, data.may, c);
            CurveShown(Adopted(TripWritten(may, layout, MomCess, data.mom, c), layout, data, c), layout, MayTrip,
                       data.may, c)
  {
    var may := TripWritten(must, layout, MayTrip, data.may, c);
    var mom := TripWritten(may, layout, MomCess, data.mom, c);
    TripCurveWritten(must, layout, MayTrip, data.may, c);
    StageKeeps(may, layout, MomCess, MayTrip, data.mom, c);
    CurveStaysShown(may, mom, layout, MayTrip, data.may, c);
    AdoptKeeps(mom, layout, MayTrip, data, c);
    CurveStaysShown(mom, Adopted(mom, layout, data, c), layout, MayTrip, data.may, c);
  }

  lemma MomIsShown(may: Memory, layout: TripLayout, data: TripData, c: Capacity)
    requires layout.WellFormed() && layout.Fits(c.nPt) && |may| == ADDRESSES && data.Holds(layout.pt)
    ensures CurveShown(Adopted(TripWritten(may, layout, MomCess, data.mom, c), layout, data, c), layout, MomCess,
                       data.mom, c)
  {
    var mom := TripWritten(may, layout, MomCess, data.mom, c);
    TripCurveWritten(may, layout, MomCess, data.mom, c);
    AdoptKeeps(mom, layout, MomCess, data, c);
    CurveStaysShown(mom, Adopted(mom, layout, data, c), layout, MomCess, data.mom, c);
  }

  /** Apart from the request to adopt it, everything that changes is in the curves of set 2. */
  lemma OnlyTargetSetChanges(layout: TripLayout, data: TripData, c: Capacity, i: int)
    requires layout.WellFormed() && layout.Fits(c.nPt)
    requires AnyTouches(layout, data, c, i) && i != layout.addr + layout.adoptAt
    ensures layout.SetOffset(TARGET, c.nPt) + layout.headerLen <= i - layout.addr < layout.SetOffset(TARGET + 1, c.nPt)
  {
    var curve :| TripTouches(layout, curve, data.Of(curve), c.nPt, i);
    TouchesWithinRegion(layout, curve, data.Of(curve), c.nPt, i);
    CurvesTileTheSet(layout, TARGET, c.nPt);
    RegionFits(layout, curve, c.nPt, c.nPt);
    RegionFits(layout, MustTrip, c.nPt, c.nPt);
    RegionFits(layout, MayTrip, c.nPt, c.nPt);
  }

  /** A translated trip curve arrives with its axes swapped and every coordinate rescaled. */
  lemma TranslatedTripCurveArrives(
    mem: Memory, layout: TripLayout, curve: TripCurve, input: DerCurve, data: TripData, c: Capacity, k: nat)
    requires layout.WellFormed() && layout.Fits(c.nPt) && |mem| == ADDRESSES && data.Holds(layout.pt)
    requires ConvertCurve(input, Flipped, layout.pt).Ok?
             && data.Of(curve) == Some(ConvertCurve(input, Flipped, layout.pt).value)
    requires c.nSets >= TARGET && k < |input.points| <= c.nPt
    ensures var after, place := AllTripWritten(mem, layout, data, c), layout.At(curve, TARGET, c.nPt);
            && place.PointAddr(k) + layout.pt.len <= ADDRESSES
            && place.addr + place.actPt < ADDRESSES
            && after[place.addr + place.actPt] == |input.points|
            && layout.pt.xType.Holds(input.points[k].1) && layout.pt.yType.Holds(input.points[k].0)
            && ReadX(after, place, k)
               == Rescale(layout.pt.xType, ScaledValue(input.points[k].1, input.yMultiplier), c.xSf).value
            && ReadY(after, place, k)
               == Rescale(layout.pt.yType, ScaledValue(input.points[k].0, input.xMultiplier), c.ySf).value
  {
    TripCurvesAreShown(mem, layout, data, c);
    var converted := data.Of(curve).value;
    assert converted.points[k] == Swap(input.points[k]);
    assert converted.points[k] in converted.points;
    RegionFits(layout, curve, |input.points|, c.nPt);
    PointFits(layout.At(curve, TARGET, c.nPt), k, |input.points|);
    PointCountFits(layout.At(curve, TARGET, c.nPt), |input.points|);
    assert CurveShown(AllTripWritten(mem, layout, data, c), layout, curve, data.Of(curve), c);
    assert Raw(layout, data.Of(curve), c)[k] == ScaledPoint(layout.pt, converted, k, c.xSf, c.ySf);
  }

  /** What a reader of optional points finds: the count, and each coordinate unless it reaches the sentinel. */
  lemma TripPointsPresent(mem: Memory, layout: TripLayout, data: TripData, c: Capacity, curve: TripCurve, k: nat)
    requires layout.WellFormed() && layout.Fits(c.nPt) && |mem| == ADDRESSES && data.Holds(layout.pt)
    requires c.nSets >= TARGET && Accepted(data.Of(curve), c.nPt) && k < |data.Of(curve).value.points|
    ensures var after, place, written := AllTripWritten(mem, layout, data, c), layout.At(curve, TARGET, c.nPt),
                                         data.Of(curve).value;
            && place.PointAddr(|written.points|) <= ADDRESSES && place.addr + place.actPt < ADDRESSES
            && AsPoint(U16, after[place.addr + place.actPt]) == Some(|written.points|)
            && PointPresent(after, place, written, c.xSf, c.ySf, k)
  {
    TripCurvesAreShown(mem, layout, data, c);
    var after := AllTripWritten(mem, layout, data, c);
    RegionFits(layout, curve, |data.Of(curve).value.points|, c.nPt);
    assert CurveShown(after, layout, curve, data.Of(curve), c);
    PointsPresent(after, layout.At(curve, TARGET, c.nPt), data.Of(curve).value, c.xSf, c.ySf, k);
  }

  // Volt curves.

  datatype VoltLayout = VoltLayout(addr: nat, len: nat, crvLen: nat, actPt: nat, pt: PointLayout) {

    predicate WellFormed() {
      actPt < crvLen && pt.WellFormed()
    }

    function CurveLen(nPt: nat): nat {
      crvLen + pt.len * nPt
    }

    function CurveOffset(index: nat, nPt: nat): nat
      requires index >= 1
    {
      len + CurveLen(nPt) * (index - 1)
    }

    function At(index: nat, nPt: nat): (place: Place)
      requires WellFormed() && index >= 1
      ensures place.WellFormed()
    {
      Place(addr + CurveOffset(index, nPt), crvLen, actPt, pt)
    }

    predicate Fits(nPt: nat) {
      addr + CurveOffset(TARGET + 1, nPt) <= ADDRESSES
    }
  }

  /** The first curve follows the fixed part of the model, and the curves follow one another without gaps. */
  lemma VoltCurvesTile(layout: VoltLayout, index: nat, nPt: nat)
    requires layout.WellFormed() && index >= 1
    ensures layout.At(1, nPt).addr == layout.addr + layout.len
    ensures layout.At(index + 1, nPt).addr == layout.At(index, nPt).addr + layout.crvLen + layout.pt.len * nPt
    ensures layout.At(index, nPt).PointAddr(nPt) == layout.addr + layout.CurveOffset(index + 1, nPt)
         == layout.At(index + 1, nPt).addr
  {
    NextSet(layout.CurveLen(nPt), index);
  }

  /** Curve 2 lies between curve 1 and curve 3. */
  lemma VoltRegionFits(layout: VoltLayout, n: nat, nPt: nat)
    requires layout.WellFormed() && layout.Fits(nPt) && n <= nPt
    ensures layout.At(1, nPt).PointAddr(nPt) == layout.At(TARGET, nPt).addr
    ensures layout.At(TARGET, nPt).PointAddr(n) <= layout.At(TARGET, nPt).PointAddr(nPt)
         == layout.addr + layout.CurveOffset(TARGET + 1, nPt)
    ensures nPt < ADDRESSES - 1
  {
    VoltCurvesTile(layout, 1, nPt);
    VoltCurvesTile(layout, TARGET, nPt);
    PointAddrGrows(layout.At(TARGET, nPt), n, nPt);
    PointsFitBelow(layout.pt.len, nPt, layout.At(TARGET, nPt).addr + layout.crvLen);
  }

  lemma PointAddrGrows(place: Place, n: nat, m: nat)
    requires place.WellFormed() && n <= m
    ensures place.PointAddr(n) <= place.PointAddr(m)
  {
    Ordered(n, m, place.pt.len);
  }

  lemma PointsFitBelow(len: nat, n: nat, at: nat)
    requires len > 0 && at > 0 && at + len * n <= ADDRESSES
    ensures n < ADDRESSES
    ensures at > 1 ==> n < ADDRESSES - 1
  {
    if n > 0 { Ordered(1, len, n); }
  }

  function VoltWritten(mem: Memory, layout: VoltLayout, data: CurveData, c: Capacity): (after: Memory)
    requires layout.WellFormed() && layout.Fits(c.nPt) && |mem| == ADDRESSES && Writable(layout.pt, data.points)
    ensures |after| == |mem|
  {
    if c.nSets >= TARGET && |data.points| <= c.nPt then
      VoltRegionFits(layout, |data.points|, c.nPt);
      PutCurve(mem, layout.At(TARGET, c.nPt), Scaled(layout.pt, data, c.xSf, c.ySf))
    else mem
  }

  /** Returns the address of the curve if it was written. */
  method WriteVoltCurve(regs: array<u16>, layout: VoltLayout, data: CurveData, c: Capacity) returns (r: Option<nat>)
    requires layout.WellFormed() && layout.Fits(c.nPt) && regs.Length == ADDRESSES && Writable(layout.pt, data.points)
    modifies regs
    ensures r == if c.nSets >= TARGET && |data.points| <= c.nPt then Some(layout.At(TARGET, c.nPt).addr) else None
    ensures regs[..] == VoltWritten(old(regs[..]), layout, data, c)
  {
    VoltRegionFits(layout, 0, c.nPt);
    if c.nSets < TARGET || Len(data) > c.nPt { return None; }
    VoltRegionFits(layout, |data.points|, c.nPt);
    WriteCurve(regs, layout.At(TARGET, c.nPt), Scaled(layout.pt, data, c.xSf, c.ySf));
    return Some(layout.At(TARGET, c.nPt).addr);
  }

  /** A volt curve that is accepted can be read back from curve 2; nothing outside its points and count changes. */
  lemma VoltCurveIsShown(mem: Memory, layout: VoltLayout, data: CurveData, c: Capacity)
    requires layout.WellFormed() && layout.Fits(c.nPt) && |mem| == ADDRESSES && Writable(layout.pt, data.points)
    requires c.nSets >= TARGET && |data.points| <= c.nPt
    ensures var after, place := VoltWritten(mem, layout, data, c), layout.At(TARGET, c.nPt);
            && place.PointAddr(|data.points|) <= ADDRESSES
            && Shows(after, place, Scaled(layout.pt, data, c.xSf, c.ySf))
            && (forall i :: 0 <= i < |mem| && !Touches(place, |data.points|, i) ==> after[i] == mem[i])
            && (forall i :: 0 <= i < |mem| && Touches(place, |data.points|, i)
                            ==> layout.At(1, c.nPt).PointAddr(c.nPt) <= i)
  {
    VoltRegionFits(layout, |data.points|, c.nPt);
    CurveIsShown(mem, layout.At(TARGET, c.nPt), Scaled(layout.pt, data, c.xSf, c.ySf));
  }

  lemma VoltPointsPresent(mem: Memory, layout: VoltLayout, data: CurveData, c: Capacity, k: nat)
    requires layout.WellFormed() && layout.Fits(c.nPt) && |mem| == ADDRESSES && Writable(layout.pt, data.points)
    requires c.nSets >= TARGET && k < |data.points| <= c.nPt
    ensures var after, place := VoltWritten(mem, layout, data, c), layout.At(TARGET, c.nPt);
            place.PointAddr(|data.points|) <= ADDRESSES && PointPresent(after, place, data, c.xSf, c.ySf, k)
  {
    VoltCurveIsShown(mem, layout, data, c);
    VoltRegionFits(layout, |data.points|, c.nPt);
    PointsPresent(VoltWritten(mem, layout, data, c), layout.At(TARGET, c.nPt), data, c.xSf, c.ySf, k);
  }
}
