/**
 Where curves live among the registers of a SunSpec model, and what writing one leaves there. A trip
 curve model holds sets of three curves; a volt curve model holds a plain list of curves. Curve 1 (or
 set 1) is read-only; curves are written to number 2.
 */
module CurveLayout {
  import opened MachineInts
  import opened RegisterMemory
  import opened ScaledValues
  import opened Wrappers

  datatype PointLayout = PointLayout(len: nat, xType: IntType, xAt: nat, yType: IntType, yAt: nat) {

    /** Both coordinates fit in the point without overlapping. */
    predicate WellFormed() {
      && xAt + WordCount(xType) <= len && yAt + WordCount(yType) <= len
      && (xAt + WordCount(xType) <= yAt || yAt + WordCount(yType) <= xAt)
    }
  }

  /** Where one curve is: its address, its length without points, and the offset of its count of active points. */
  datatype Place = Place(addr: nat, staticLen: nat, actPt: nat, pt: PointLayout) {

    predicate WellFormed() {
      actPt < staticLen && pt.WellFormed()
    }

    function PointAddr(k: nat): nat {
      addr + staticLen + pt.len * k
    }
  }

  /** Coordinates as they are written, after scaling. */
  type RawPoints = seq<(int, int)>

  predicate Writable(pt: PointLayout, points: RawPoints) {
    forall p <- points :: pt.xType.Holds(p.0) && pt.yType.Holds(p.1)
  }

  datatype CurveData = CurveData(points: seq<(int, int)>, sfX: i16, sfY: i16)

  function Scaled(pt: PointLayout, curve: CurveData, xSf: i16, ySf: i16): (points: RawPoints)
    requires Writable(pt, curve.points)
    ensures |points| == |curve.points| && Writable(pt, points)
  {
    seq(|curve.points|, k requires 0 <= k < |curve.points| => ScaledPoint(pt, curve, k, xSf, ySf))
  }

  function ScaledPoint(pt: PointLayout, curve: CurveData, k: nat, xSf: i16, ySf: i16): (p: (int, int))
    requires Writable(pt, curve.points) && k < |curve.points|
    ensures pt.xType.Holds(p.0) && pt.yType.Holds(p.1)
  {
    (Rescale(pt.xType, ScaledValue(curve.points[k].0, curve.sfX), xSf).value,
     Rescale(pt.yType, ScaledValue(curve.points[k].1, curve.sfY), ySf).value)
  }

  // Writing one curve.

  function PutPoint(mem: Memory, at: nat, pt: PointLayout, p: (int, int)): (after: Memory)
    requires pt.WellFormed() && at + pt.len <= |mem|
    requires pt.xType.Holds(p.0) && pt.yType.Holds(p.1)
    ensures |after| == |mem|
  {
    Put(Put(mem, at + pt.xAt, Encode(pt.xType, p.0)), at + pt.yAt, Encode(pt.yType, p.1))
  }

  function PutPoints(mem: Memory, place: Place, points: RawPoints): (after: Memory)
    requires place.WellFormed() && Writable(place.pt, points)
    requires place.PointAddr(|points|) <= |mem|
    ensures |after| == |mem|
  {
    if points == [] then mem else
    var n := |points| - 1;
    Ordered(n, n + 1, place.pt.len);
    PutPoint(PutPoints(mem, place, points[..n]), place.PointAddr(n), place.pt, points[n])
  }

  function PutCurve(mem: Memory, place: Place, points: RawPoints): (after: Memory)
    requires place.WellFormed() && Writable(place.pt, points)
    requires place.PointAddr(|points|) <= |mem| <= ADDRESSES
    ensures |after| == |mem|
  {
    PointCountFits(place, |points|);
    PutPoints(Put(mem, place.addr + place.actPt, [|points|]), place, points)
  }

  /** A curve that fits in the address space has fewer points than a register can count. */
  lemma PointCountFits(place: Place, n: nat)
    requires place.WellFormed() && place.PointAddr(n) <= ADDRESSES
    ensures n < ADDRESSES && place.actPt + place.addr < place.PointAddr(n)
  {
    if n > 0 { Ordered(1, place.pt.len, n); }
  }

  // Reading it back.

  function XAt(mem: Memory, at: nat, pt: PointLayout): int
    requires pt.WellFormed() && at + pt.len <= |mem|
  {
    Decode(pt.xType, Get(mem, at + pt.xAt, WordCount(pt.xType)))
  }

  function YAt(mem: Memory, at: nat, pt: PointLayout): int
    requires pt.WellFormed() && at + pt.len <= |mem|
  {
    Decode(pt.yType, Get(mem, at + pt.yAt, WordCount(pt.yType)))
  }

  function ReadX(mem: Memory, place: Place, k: nat): int
    requires place.WellFormed() && place.PointAddr(k) + place.pt.len <= |mem|
  {
    XAt(mem, place.PointAddr(k), place.pt)
  }

  function ReadY(mem: Memory, place: Place, k: nat): int
    requires place.WellFormed() && place.PointAddr(k) + place.pt.len <= |mem|
  {
    YAt(mem, place.PointAddr(k), place.pt)
  }

  lemma PointFits(place: Place, k: nat, n: nat)
    requires place.WellFormed() && k < n
    ensures place.PointAddr(k) + place.pt.len <= place.PointAddr(n)
  {
    Ordered(k, n, place.pt.len);
  }

  lemma PutPointReadsBack(mem: Memory, at: nat, pt: PointLayout, p: (int, int))
    requires pt.WellFormed() && at + pt.len <= |mem|
    requires pt.xType.Holds(p.0) && pt.yType.Holds(p.1)
    ensures XAt(PutPoint(mem, at, pt, p), at, pt) == p.0 && YAt(PutPoint(mem, at, pt, p), at, pt) == p.1
    ensures forall i :: 0 <= i < |mem| && !(at <= i < at + pt.len) ==> PutPoint(mem, at, pt, p)[i] == mem[i]
  {
    var first := Put(mem, at + pt.xAt, Encode(pt.xType, p.0));
    SameStretch(first, PutPoint(mem, at, pt, p), at + pt.xAt, WordCount(pt.xType));
    DecodeEncode(pt.xType, p.0);
    DecodeEncode(pt.yType, p.1);
  }

  /** Only the active points are touched. */
  lemma {:induction false} PointsFrame(mem: Memory, place: Place, points: RawPoints, i: nat)
    requires place.WellFormed() && Writable(place.pt, points)
    requires place.PointAddr(|points|) <= |mem|
    requires i < |mem| && !(place.PointAddr(0) <= i < place.PointAddr(|points|))
    ensures PutPoints(mem, place, points)[i] == mem[i]
    decreases |points|
  {
    if points != [] {
      var n := |points| - 1;
      PointFits(place, n, n + 1);
      if n > 0 { PointFits(place, 0, n); }
      PointsFrame(mem, place, points[..n], i);
      PutPointReadsBack(PutPoints(mem, place, points[..n]), place.PointAddr(n), place.pt, points[n]);
    }
  }

  /** A point reads the same while its registers stay the same. */
  lemma PointStays(before: Memory, after: Memory, at: nat, pt: PointLayout)
    requires pt.WellFormed() && at + pt.len <= |before| == |after|
    requires forall i :: at <= i < at + pt.len ==> after[i] == before[i]
    ensures XAt(after, at, pt) == XAt(before, at, pt) && YAt(after, at, pt) == YAt(before, at, pt)
  {
    SameStretch(before, after, at + pt.xAt, WordCount(pt.xType));
    SameStretch(before, after, at + pt.yAt, WordCount(pt.yType));
  }

  /** The last point, and those before it. */
  lemma PutLast(mem: Memory, place: Place, points: RawPoints)
    requires place.WellFormed() && Writable(place.pt, points) && points != []
    requires place.PointAddr(|points|) <= |mem|
    ensures var n := |points| - 1;
            && place.PointAddr(n) + place.pt.len <= |mem|
            && PutPoints(mem, place, points)
               == PutPoint(PutPoints(mem, place, points[..n]), place.PointAddr(n), place.pt, points[n])
  {
    PointFits(place, |points| - 1, |points|);
  }

  predicate PointIs(mem: Memory, at: nat, pt: PointLayout, p: (int, int))
    requires pt.WellFormed()
  {
    at + pt.len <= |mem| && XAt(mem, at, pt) == p.0 && YAt(mem, at, pt) == p.1
  }

  lemma PutPointShows(mem: Memory, at: nat, pt: PointLayout, p: (int, int))
    requires pt.WellFormed() && at + pt.len <= |mem| && pt.xType.Holds(p.0) && pt.yType.Holds(p.1)
    ensures PointIs(PutPoint(mem, at, pt, p), at, pt, p)
  {
    PutPointReadsBack(mem, at, pt, p);
  }

  lemma LastReadsBack(mem: Memory, place: Place, points: RawPoints)
    requires place.WellFormed() && Writable(place.pt, points) && points != []
    requires place.PointAddr(|points|) <= |mem|
    ensures PointIs(PutPoints(mem, place, points), place.PointAddr(|points| - 1), place.pt, points[|points| - 1])
  {
    var n := |points| - 1;
    PutLast(mem, place, points);
    PutPointShows(PutPoints(mem, place, points[..n]), place.PointAddr(n), place.pt, points[n]);
  }

  /** Writing further points leaves the registers of those before. */
  lemma {:induction false} PrefixStays(mem: Memory, place: Place, points: RawPoints, m: nat, i: nat)
    requires place.WellFormed() && Writable(place.pt, points) && m <= |points|
    requires place.PointAddr(|points|) <= |mem| && i < place.PointAddr(m) <= |mem|
    ensures PutPoints(mem, place, points)[i] == PutPoints(mem, place, points[..m])[i]
    decreases |points|
  {
    var n := |points| - 1;
    if m <= n {
      PutLast(mem, place, points);
      Ordered(m, n, place.pt.len);
      PrefixStays(mem, place, points[..n], m, i);
      assert points[..n][..m] == points[..m];
      PutPointReadsBack(PutPoints(mem, place, points[..n]), place.PointAddr(n), place.pt, points[n]);
    } else {
      assert points[..m] == points;
    }
  }

  lemma PointsReadBack(mem: Memory, place: Place, points: RawPoints, k: nat)
    requires place.WellFormed() && Writable(place.pt, points)
    requires place.PointAddr(|points|) <= |mem| && k < |points|
    ensures PointIs(PutPoints(mem, place, points), place.PointAddr(k), place.pt, points[k])
  {
    PointFits(place, k, k + 1);
    Ordered(k + 1, |points|, place.pt.len);
    var head := points[..k + 1];
    LastReadsBack(mem, place, head);
    forall i | place.PointAddr(k) <= i < place.PointAddr(k) + place.pt.len
      ensures PutPoints(mem, place, points)[i] == PutPoints(mem, place, head)[i]
    {
      PrefixStays(mem, place, points, k + 1, i);
    }
    PointStays(PutPoints(mem, place, head), PutPoints(mem, place, points), place.PointAddr(k), place.pt);
  }

  /** What one written curve means: its count and points are there. */
  ghost predicate Shows(mem: Memory, place: Place, points: RawPoints)
    requires place.WellFormed() && place.PointAddr(|points|) <= |mem|
  {
    PointFitsAll(place, |points|);
    && place.addr + place.actPt < |mem| && mem[place.addr + place.actPt] == |points|
    && forall k :: 0 <= k < |points| ==> ReadX(mem, place, k) == points[k].0 && ReadY(mem, place, k) == points[k].1
  }

  lemma PointFitsAll(place: Place, n: nat)
    requires place.WellFormed()
    ensures forall k :: 0 <= k < n ==> place.PointAddr(k) + place.pt.len <= place.PointAddr(n)
  {
    forall k | 0 <= k < n ensures place.PointAddr(k) + place.pt.len <= place.PointAddr(n) {
      PointFits(place, k, n);
    }
  }

  /** A register that writing the curve may change. */
  predicate Touches(place: Place, n: nat, i: int) {
    i == place.addr + place.actPt || place.PointAddr(0) <= i < place.PointAddr(n)
  }

  /** Writing a curve shows exactly that curve, and changes nothing but its count and its active points. */
  lemma CurveIsShown(mem: Memory, place: Place, points: RawPoints)
    requires place.WellFormed() && Writable(place.pt, points)
    requires place.PointAddr(|points|) <= |mem| <= ADDRESSES
    ensures Shows(PutCurve(mem, place, points), place, points)
    ensures forall i :: 0 <= i < |mem| && !Touches(place, |points|, i) ==> PutCurve(mem, place, points)[i] == mem[i]
  {
    PointCountFits(place, |points|);
    PointFitsAll(place, |points|);
    var counted := Put(mem, place.addr + place.actPt, [|points|]);
    forall i | 0 <= i < |mem| && !(place.PointAddr(0) <= i < place.PointAddr(|points|))
      ensures PutPoints(counted, place, points)[i] == counted[i]
    {
      PointsFrame(counted, place, points, i);
    }
    assert counted[place.addr + place.actPt] == Get(counted, place.addr + place.actPt, 1)[0];
    forall k | 0 <= k < |points|
      ensures ReadX(PutPoints(counted, place, points), place, k) == points[k].0
      ensures ReadY(PutPoints(counted, place, points), place, k) == points[k].1
    {
      PointsReadBack(counted, place, points, k);
    }
  }

  /** A curve stays shown while none of its registers change. */
  lemma StaysShown(before: Memory, after: Memory, place: Place, points: RawPoints)
    requires place.WellFormed() && place.PointAddr(|points|) <= |before| == |after|
    requires Shows(before, place, points)
    requires forall i :: place.addr <= i < place.PointAddr(|points|) ==> after[i] == before[i]
    ensures Shows(after, place, points)
  {
    PointFitsAll(place, |points|);
    assert place.PointAddr(0) <= place.PointAddr(|points|) by { Ordered(0, |points|, place.pt.len); }
    forall k | 0 <= k < |points|
      ensures ReadX(after, place, k) == points[k].0 && ReadY(after, place, k) == points[k].1
    {
      CurvePointStays(before, after, place, |points|, k);
    }
  }

  lemma CurvePointStays(before: Memory, after: Memory, place: Place, n: nat, k: nat)
    requires place.WellFormed() && k < n && place.PointAddr(n) <= |before| == |after|
    requires forall i :: place.addr <= i < place.PointAddr(n) ==> after[i] == before[i]
    ensures place.PointAddr(k) + place.pt.len <= |before|
    ensures ReadX(after, place, k) == ReadX(before, place, k) && ReadY(after, place, k) == ReadY(before, place, k)
  {
    PointFits(place, k, n);
    PointStays(before, after, place.PointAddr(k), place.pt);
  }

  // What the device's own optional points make of it.

  /** An optional point: absent if it holds the value for "not implemented". */
  function AsPoint(t: IntType, x: int): Option<int> {
    if t.Implemented(x) then Some(x) else None
  }

  /** What an optional point shows of a coordinate that was rescaled into it. */
  ghost function Present(t: IntType, v: ScaledValue, targetSf: i16): Option<int> {
    var exact := ExactlyRescaled(v, targetSf);
    if ShortOfSentinel(t, exact) then Some(Clamp(exact, t.Min(), t.Max())) else None
  }

  /** Point `k` as a reader of optional points finds it: a coordinate is absent exactly if it reaches the sentinel. */
  ghost predicate PointPresent(mem: Memory, place: Place, curve: CurveData, xSf: i16, ySf: i16, k: nat)
    requires place.WellFormed() && k < |curve.points| && place.PointAddr(|curve.points|) <= |mem|
  {
    PointFits(place, k, |curve.points|);
    var (x, y) := curve.points[k];
    && AsPoint(place.pt.xType, ReadX(mem, place, k)) == Present(place.pt.xType, ScaledValue(x, curve.sfX), xSf)
    && AsPoint(place.pt.yType, ReadY(mem, place, k)) == Present(place.pt.yType, ScaledValue(y, curve.sfY), ySf)
  }

  lemma PointsPresent(mem: Memory, place: Place, curve: CurveData, xSf: i16, ySf: i16, k: nat)
    requires place.WellFormed() && Writable(place.pt, curve.points) && k < |curve.points|
    requires place.PointAddr(|curve.points|) <= |mem| && Shows(mem, place, Scaled(place.pt, curve, xSf, ySf))
    ensures PointPresent(mem, place, curve, xSf, ySf, k)
  {
    PointFits(place, k, |curve.points|);
    var (x, y) := curve.points[k];
    assert curve.points[k] in curve.points;
    assert Scaled(place.pt, curve, xSf, ySf)[k] == ScaledPoint(place.pt, curve, k, xSf, ySf);
    CoordinateRead(place.pt.xType, ScaledValue(x, curve.sfX), xSf);
    CoordinateRead(place.pt.yType, ScaledValue(y, curve.sfY), ySf);
  }

  lemma CoordinateRead(t: IntType, v: ScaledValue, targetSf: i16)
    requires t.Holds(v.value)
    ensures AsPoint(t, Rescale(t, v, targetSf).value) == Present(t, v, targetSf)
  {
    RescaleExact(t, v, targetSf);
    RescaleImplemented(t, v, targetSf);
  }
}
