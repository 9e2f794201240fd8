/**
 The limit registers of SunSpec model 704 and the deferred writing of percentages that can only be
 derived once the device reports its rating.
 */
module LimitRegisters {
  import opened MachineInts
  import opened ScaledValues
  import opened PercentDerivation
  import opened Wrappers

  datatype Enablement = Disabled | Enabled
  datatype WSetMod = WMaxPct | Watts

  type U16Value = v: ScaledValue | U16.Holds(v.value) witness ScaledValue(0, 0)
  type I16Value = v: ScaledValue | I16.Holds(v.value) witness ScaledValue(0, 0)
  type I32Value = v: ScaledValue | I32.Holds(v.value) witness ScaledValue(0, 0)
  type U32Value = v: ScaledValue | U32.Holds(v.value) witness ScaledValue(0, 0)

  /**
   The limit part of the parameters. The other registers that a full send writes are words without
   further meaning here, some sent before the limits and some after.
   */
  datatype Parameters = Parameters(
    wMaxLimPctEna: Option<Enablement>,
    wMaxLimPct: Option<U16Value>,
    wSetPct: Option<I16Value>,
    wSetEna: Option<Enablement>,
    wSetMod: Option<WSetMod>,
    wSet: Option<I32Value>,
    wSetIsImportSiteLimit: bool,
    wMaxLim: Option<U32Value>,
    beforeLimits: seq<int>,
    afterLimits: seq<int>)

  /** What the device reports: supported models, its rating and the scale factors. */
  datatype DeviceInfo = DeviceInfo(
    has702: bool,
    has704: bool,
    wMaxRtg: Option<u16>,
    wSf: Option<i16>,
    wMaxLimPctSf: Option<i16>,
    wSetPctSf: Option<i16>,
    wSetSf: Option<i16>)

  datatype Registers = Registers(
    wMaxLimPctEna: Enablement,
    wMaxLimPct: int,
    wSetEna: Enablement,
    wSetPct: int,
    wSetMod: WSetMod,
    wSet: int)

  datatype Write =
    | WMaxLimPctEna(ena: Enablement)
    | WMaxLimPct(pct: int)
    | WSetEna(ena: Enablement)
    | WSetPct(setPct: int)
    | WSetMode(mode: WSetMod)
    | WSet(watts: int)
    | Elsewhere(word: int)

  function Put(regs: Registers, write: Write): Registers {
    match write
    case WMaxLimPctEna(ena) => regs.(wMaxLimPctEna := ena)
    case WMaxLimPct(pct) => regs.(wMaxLimPct := pct)
    case WSetEna(ena) => regs.(wSetEna := ena)
    case WSetPct(pct) => regs.(wSetPct := pct)
    case WSetMode(mode) => regs.(wSetMod := mode)
    case WSet(watts) => regs.(wSet := watts)
    case Elsewhere(_) => regs
  }

  function PutAll(regs: Registers, writes: seq<Write>): Registers
    decreases |writes|
  {
    if writes == [] then regs else PutAll(Put(regs, writes[0]), writes[1..])
  }

  lemma {:induction false} PutAllConcat(regs: Registers, a: seq<Write>, b: seq<Write>)
    ensures PutAll(regs, a + b) == PutAll(PutAll(regs, a), b)
    decreases |a|
  {
    if a == [] {
      assert a + b == b;
    } else {
      assert (a + b)[1..] == a[1..] + b;
      PutAllConcat(Put(regs, a[0]), a[1..], b);
    }
  }

  // What one send works out.

  predicate DerivesWSetPct(p: Parameters) {
    p.wSetPct.None? && p.wSet.Some?
  }

  predicate NeedsRating(p: Parameters) {
    p.wMaxLim.Some? || DerivesWSetPct(p)
  }

  function RatingRead(p: Parameters, info: DeviceInfo): Option<U16Value> {
    if NeedsRating(p) && info.has702
       && info.wMaxRtg.Some? then Some(ScaledValue(info.wMaxRtg.value, info.wSf.UnwrapOr(0))) else None
  }

  function MaxLimPctSf(p: Parameters, info: DeviceInfo): Option<i16> {
    if p.wMaxLimPct.Some? || (p.wMaxLim.Some? && RatingRead(p, info).Some?) then Some(info.wMaxLimPctSf.UnwrapOr(0))
    else None
  }

  function ExplicitMaxLimPct(p: Parameters, info: DeviceInfo): Option<U16Value> {
    if p.wMaxLimPct.Some?
       && MaxLimPctSf(p, info).Some? then Some(Rescale(U16, p.wMaxLimPct.value, MaxLimPctSf(p, info).value)) else None
  }

  function DerivedMaxLimPct(p: Parameters, info: DeviceInfo): Option<U16Value> {
    if p.wMaxLim.Some? && RatingRead(p, info).Some? && MaxLimPctSf(p, info).Some? then
      WMaxLimPctFromWMaxLim(p.wMaxLim.value, RatingRead(p, info).value, MaxLimPctSf(p, info).value)
    else None
  }

  /** The more restrictive of the explicit and the derived limit. */
  function ChosenMaxLimPct(p: Parameters, info: DeviceInfo): Option<U16Value> {
    match (ExplicitMaxLimPct(p, info), DerivedMaxLimPct(p, info))
    case (Some(explicit), Some(derived)) => if derived.value < explicit.value then Some(derived) else Some(explicit)
    case (Some(explicit), None) => Some(explicit)
    case (None, Some(derived)) => Some(derived)
    case (None, None) => None
  }

  predicate MaxLimPending(p: Parameters, info: DeviceInfo) {
    p.wMaxLim.Some? && DerivedMaxLimPct(p, info).None?
  }

  function ChosenMaxLimEna(p: Parameters, info: DeviceInfo): Option<Enablement> {
    match (p.wMaxLimPctEna, ChosenMaxLimPct(p, info))
    case (Some(ena), Some(_)) =>
      if ena == Disabled && p.wMaxLimPct.None? && p.wMaxLim.Some? then Some(Enabled) else Some(ena)
    case (Some(ena), None) => Some(ena)
    case (None, Some(_)) => Some(Enabled)
    case (None, None) => None
  }

  function SetPctSf(p: Parameters, info: DeviceInfo): Option<i16> {
    if p.wSetPct.Some? || (DerivesWSetPct(p) && RatingRead(p, info).Some?) then Some(info.wSetPctSf.UnwrapOr(0))
    else None
  }

  function ChosenSetPct(p: Parameters, info: DeviceInfo): Option<I16Value> {
    if p.wSetPct.Some? then p.wSetPct
    else if p.wSet.Some? && RatingRead(p, info).Some? && SetPctSf(p, info).Some? then
      WSetPctFromWSet(p.wSet.value, RatingRead(p, info).value, SetPctSf(p, info).value, p.wSetIsImportSiteLimit)
    else None
  }

  predicate SetPctPending(p: Parameters, info: DeviceInfo) {
    DerivesWSetPct(p) && ChosenSetPct(p, info).None?
  }

  predicate ImportPending(p: Parameters, info: DeviceInfo) {
    p.wSetIsImportSiteLimit && SetPctPending(p, info)
  }

  predicate ImportUsesPct(p: Parameters, info: DeviceInfo) {
    p.wSetIsImportSiteLimit && ChosenSetPct(p, info).Some?
  }

  // The writes of one send, in order.

  function MaxLimPctWrite(p: Parameters, info: DeviceInfo): seq<Write> {
    var sf, pct := MaxLimPctSf(p, info), ChosenMaxLimPct(p, info);
    if sf.Some? && pct.Some? then [WMaxLimPct(Rescale(U16, pct.value, sf.value).value)] else []
  }

  function ExportWrites(p: Parameters, info: DeviceInfo, retryOnly: bool): seq<Write> {
    if (!retryOnly || p.wMaxLim.Some?) && !MaxLimPending(p, info) then
      (match ChosenMaxLimEna(p, info) case None => [] case Some(ena) => [WMaxLimPctEna(ena)]) + MaxLimPctWrite(p, info)
    else []
  }

  function SetPctWrite(p: Parameters, info: DeviceInfo): seq<Write> {
    var sf, pct := SetPctSf(p, info), ChosenSetPct(p, info);
    if sf.Some? && pct.Some? then [WSetPct(Rescale(I16, pct.value, sf.value).value)] else []
  }

  function SetControlWrites(p: Parameters, info: DeviceInfo, retryOnly: bool): seq<Write> {
    if (!retryOnly || DerivesWSetPct(p)) && !ImportPending(p, info) then
      (if (!retryOnly || p.wSetIsImportSiteLimit) && p.wSetEna.Some? then [WSetEna(p.wSetEna.value)] else [])
      + SetPctWrite(p, info)
    else []
  }

  function WattsWrites(p: Parameters, info: DeviceInfo, retryOnly: bool): seq<Write> {
    if p.wSet.Some? && !retryOnly && !ImportUsesPct(p, info) && !ImportPending(p, info) then
      [WSet(Rescale(I32, p.wSet.value, info.wSetSf.UnwrapOr(0)).value)]
    else []
  }

  function ModeWrites(p: Parameters, info: DeviceInfo, retryOnly: bool): seq<Write> {
    var mode := if ImportUsesPct(p, info) then Some(WMaxPct) else p.wSetMod;
    if (!retryOnly || DerivesWSetPct(p)) && !ImportPending(p, info) && (!retryOnly || p.wSetIsImportSiteLimit)
       && mode.Some? then
      [WSetMode(mode.value)]
    else []
  }

  /** The register writes of one complete send. */
  function LimitWrites(p: Parameters, info: DeviceInfo, retryOnly: bool): seq<Write> {
    if !info.has704 then [] else
    ExportWrites(p, info, retryOnly) + SetControlWrites(p, info, retryOnly) + WattsWrites(p, info, retryOnly)
    + ModeWrites(p, info, retryOnly)
  }

  function Words(words: seq<int>): seq<Write> {
    seq(|words|, i requires 0 <= i < |words| => Elsewhere(words[i]))
  }

  /** The writes of a full send of new parameters. */
  function FullWrites(p: Parameters, info: DeviceInfo): seq<Write> {
    Words(p.beforeLimits) + LimitWrites(p, info, false) + Words(p.afterLimits)
  }

  /** The words before, then the limits, then the words after, each in order and nothing else. */
  ghost predicate Flanked(r: seq<Write>, before: seq<int>, limits: seq<Write>, after: seq<int>) {
    && |r| == |before| + |limits| + |after|
    && (forall i :: 0 <= i < |before| ==> r[i] == Elsewhere(before[i]))
    && r[|before|..|before| + |limits|] == limits
    && (forall i :: 0 <= i < |after| ==> r[|before| + |limits| + i] == Elsewhere(after[i]))
  }

  lemma WordsFlank(before: seq<int>, limits: seq<Write>, after: seq<int>)
    ensures Flanked(Words(before) + limits + Words(after), before, limits, after)
  {
  }

  /** A full send writes every word once, in order, the limits standing between the two groups of other registers. */
  lemma LimitsStandBetween(p: Parameters, info: DeviceInfo)
    ensures Flanked(FullWrites(p, info), p.beforeLimits, LimitWrites(p, info, false), p.afterLimits)
  {
    WordsFlank(p.beforeLimits, LimitWrites(p, info, false), p.afterLimits);
  }

  /** Whether something had to be left for later. */
  predicate Deferred(p: Parameters, info: DeviceInfo, retryOnly: bool) {
    info.has704 && (((!retryOnly || p.wMaxLim.Some?) && MaxLimPending(p, info)) || SetPctPending(p, info))
  }

  function Send(regs: Registers, p: Parameters, info: DeviceInfo, retryOnly: bool): Registers {
    PutAll(regs, LimitWrites(p, info, retryOnly))
  }

  // Deferral and convergence.

  predicate RatingAvailable(info: DeviceInfo) {
    info.has702 && info.wMaxRtg.Some? && info.wMaxRtg.value > 0
  }

  /** Two readings of one device that may differ in the availability and value of its rating only. */
  predicate SameButRating(a: DeviceInfo, b: DeviceInfo) {
    a.has704 == b.has704 && a.wMaxLimPctSf == b.wMaxLimPctSf && a.wSetPctSf == b.wSetPctSf && a.wSetSf == b.wSetSf
  }

  /** Something is deferred exactly when a percentage has to be derived and the rating is not available. */
  lemma DeferredWhen(p: Parameters, info: DeviceInfo, retryOnly: bool)
    ensures Deferred(p, info, retryOnly) <==> info.has704 && NeedsRating(p) && !RatingAvailable(info)
  {
    if p.wMaxLim.Some? && RatingRead(p, info).Some? {
      WMaxLimPctExact(p.wMaxLim.value, RatingRead(p, info).value, MaxLimPctSf(p, info).value);
    }
    if DerivesWSetPct(p) && RatingRead(p, info).Some? {
      WSetPctExact(p.wSet.value, RatingRead(p, info).value, SetPctSf(p, info).value, p.wSetIsImportSiteLimit);
    }
  }

  /** Without a rating nothing is derived. */
  lemma NothingDerived(p: Parameters, info: DeviceInfo)
    requires !RatingAvailable(info)
    ensures DerivedMaxLimPct(p, info).None?
    ensures DerivesWSetPct(p) ==> ChosenSetPct(p, info).None?
  {
    if p.wMaxLim.Some? && RatingRead(p, info).Some? {
      WMaxLimPctExact(p.wMaxLim.value, RatingRead(p, info).value, MaxLimPctSf(p, info).value);
    }
    if DerivesWSetPct(p) && RatingRead(p, info).Some? {
      WSetPctExact(p.wSet.value, RatingRead(p, info).value, SetPctSf(p, info).value, p.wSetIsImportSiteLimit);
    }
  }

  /** With one, everything is. */
  lemma AllDerived(p: Parameters, info: DeviceInfo)
    requires RatingAvailable(info)
    ensures p.wMaxLim.Some? ==> DerivedMaxLimPct(p, info).Some?
    ensures DerivesWSetPct(p) ==> ChosenSetPct(p, info).Some?
  {
    if p.wMaxLim.Some? {
      WMaxLimPctExact(p.wMaxLim.value, RatingRead(p, info).value, MaxLimPctSf(p, info).value);
    }
    if DerivesWSetPct(p) {
      WSetPctExact(p.wSet.value, RatingRead(p, info).value, SetPctSf(p, info).value, p.wSetIsImportSiteLimit);
    }
  }

  /** A retry while the rating is still unavailable writes nothing. */
  lemma RetryWithoutRating(p: Parameters, info: DeviceInfo)
    requires !RatingAvailable(info)
    ensures LimitWrites(p, info, true) == []
  {
    NothingDerived(p, info);
  }
}
