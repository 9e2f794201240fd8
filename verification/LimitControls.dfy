/**
 From the controls of a utility server to the limit registers: which registers end up holding a site
 limit, and that the percentages written there never exceed it.
 */
module LimitControls {
  import opened LimitConvergence
  import opened LimitRegisters
  import opened MachineInts
  import opened PercentDerivation
  import opened PowersOfTen
  import opened ScaledValues
  import opened Wrappers

  datatype ActivePower = ActivePower(value: i16, multiplier: i16)

  /** The part of a DERControlBase that concerns active power; the rest goes to other registers. */
  datatype ControlBase = ControlBase(
    opModFixedW: Option<i16>,
    opModTargetW: Option<ActivePower>,
    opModImpLimW: Option<ActivePower>,
    opModExpLimW: Option<ActivePower>,
    opModMaxLimW: Option<u16>,
    beforeLimits: seq<int>,
    afterLimits: seq<int>)

  const HUNDREDTHS_SF: i16 := -2

  function Enable(present: bool): Enablement {
    if present then Enabled else Disabled
  }

  function Watts32(power: ActivePower): I32Value {
    ScaledValue(power.value, power.multiplier)
  }

  /** Minus the absolute value. */
  function MinusAbs(x: int): int {
    if x < 0 then x else -x
  }

  function ImportSiteLimit(base: ControlBase, mapSiteLimits: bool): Option<I32Value> {
    match base.opModImpLimW
    case Some(power) => if mapSiteLimits then Some(ScaledValue(MinusAbs(power.value), power.multiplier)) else None
    case None => None
  }

  function ExportSiteLimit(base: ControlBase, mapSiteLimits: bool): Option<U32Value> {
    match base.opModExpLimW
    case Some(power) => if mapSiteLimits then Some(ScaledValue(Abs(power.value), power.multiplier)) else None
    case None => None
  }

  function TargetW(base: ControlBase): Option<I32Value> {
    if base.opModTargetW.Some? then Some(Watts32(base.opModTargetW.value)) else None
  }

  function SetMode(fixed: bool, watts: bool): Option<WSetMod> {
    if fixed then Some(WMaxPct) else if watts then Some(Watts) else None
  }

  /** The translation of one control; `mapSiteLimits` is the build option that enables site limits. */
  function ToParameters(base: ControlBase, mapSiteLimits: bool): Parameters {
    var importLimit := ImportSiteLimit(base, mapSiteLimits);
    var target := TargetW(base);
    var wSet := if target.Some? then target else importLimit;
    Parameters(
      Some(Enable(base.opModMaxLimW.Some?)),
      if base.opModMaxLimW.Some? then Some(ScaledValue(base.opModMaxLimW.value, HUNDREDTHS_SF)) else None,
      if base.opModFixedW.Some? then Some(ScaledValue(base.opModFixedW.value, HUNDREDTHS_SF)) else None,
      Some(Enable(base.opModFixedW.Some? || wSet.Some?)),
      SetMode(base.opModFixedW.Some?, wSet.Some?),
      wSet,
      target.None? && importLimit.Some?,
      ExportSiteLimit(base, mapSiteLimits),
      base.beforeLimits,
      base.afterLimits)
  }

  function Magnitude(power: ActivePower): ScaledValue {
    ScaledValue(Abs(power.value), power.multiplier)
  }

  function Rating(info: DeviceInfo): ScaledValue
    requires RatingAvailable(info)
  {
    ScaledValue(info.wMaxRtg.value, info.wSf.UnwrapOr(0))
  }

  /** A smaller percentage stays within the limit. */
  lemma AtMostDownward(pct: ScaledValue, smaller: ScaledValue, rating: ScaledValue, limit: ScaledValue)
    requires AtMost(pct, rating, limit)
    requires smaller.sf == pct.sf && smaller.value <= pct.value && rating.value > 0
    ensures AtMost(smaller, rating, limit)
  {
    Ordered(smaller.value, pct.value, rating.value);
    AtScaleOrder((smaller.value * rating.value) as real, (pct.value * rating.value) as real, pct.sf + rating.sf);
  }

  /** The percentage limit is enabled and within the export limit in watts and within an explicit percentage. */
  ghost predicate ExportInForce(regs: Registers, base: ControlBase, info: DeviceInfo)
    requires base.opModExpLimW.Some? && RatingAvailable(info)
  {
    var sf := info.wMaxLimPctSf.UnwrapOr(0);
    && regs.wMaxLimPctEna == Enabled && U16.Implemented(regs.wMaxLimPct)
    && AtMost(ScaledValue(regs.wMaxLimPct, sf), Rating(info), Magnitude(base.opModExpLimW.value))
    && (base.opModMaxLimW.Some?
        ==> regs.wMaxLimPct <= Rescale(U16, ScaledValue(base.opModMaxLimW.value, HUNDREDTHS_SF), sf).value)
  }

  /** Nothing else in the control sets the power. */
  predicate OnlyImportLimit(base: ControlBase) {
    base.opModImpLimW.Some? && base.opModTargetW.None? && base.opModFixedW.None?
  }

  /** The set point is enabled in percentage mode, draws power, and no more than the limit in watts. */
  ghost predicate ImportInForce(regs: Registers, base: ControlBase, info: DeviceInfo)
    requires OnlyImportLimit(base) && RatingAvailable(info)
  {
    && regs.wSetEna == Enabled && regs.wSetMod == WMaxPct
    && regs.wSetPct <= 0 && I16.Implemented(regs.wSetPct)
    && AtMost(ScaledValue(-regs.wSetPct, info.wSetPctSf.UnwrapOr(0)), Rating(info), Magnitude(base.opModImpLimW.value))
  }

  /** Both, as far as the control asks for them. */
  ghost predicate InForce(regs: Registers, base: ControlBase, info: DeviceInfo) {
    && (base.opModExpLimW.Some? ==> RatingAvailable(info) && ExportInForce(regs, base, info))
    && (OnlyImportLimit(base) ==> RatingAvailable(info) && ImportInForce(regs, base, info))
  }

  /** Once the rating is available, an export limit is in force. */
  lemma ExportLimitIsEnforced(base: ControlBase, regs: Registers, info: DeviceInfo)
    requires base.opModExpLimW.Some?
    requires info.has704 && RatingAvailable(info)
    ensures ExportInForce(Send(regs, ToParameters(base, true), info, false), base, info)
  {
    var p, sf := ToParameters(base, true), info.wMaxLimPctSf.UnwrapOr(0);
    ExportLimitIsConservative(p.wMaxLim.value, Rating(info), sf);
    WMaxLimPctExact(p.wMaxLim.value, Rating(info), sf);
    var derived := DerivedMaxLimPct(p, info).value;
    var chosen := ChosenMaxLimPct(p, info).value;
    AtMostDownward(derived, chosen, Rating(info), p.wMaxLim.value);
    PutAllIsChange(regs, LimitWrites(p, info, false));
    SendEffect(p, info, false);
    ExportOnly(p, info, false);
    EffectOfTwo(MaxLimPctWrite(p, info), []);
  }

  /**
   Once the rating is available, an import limit that neither a target nor a fixed set point overrides
   is in force as a percentage, and the watts register is left alone.
   */
  lemma ImportLimitIsEnforced(base: ControlBase, regs: Registers, info: DeviceInfo)
    requires OnlyImportLimit(base) && info.has704 && RatingAvailable(info)
    ensures var after := Send(regs, ToParameters(base, true), info, false);
            ImportInForce(after, base, info) && after.wSet == regs.wSet
  {
    var p, sf := ToParameters(base, true), info.wSetPctSf.UnwrapOr(0);
    ImportLimitIsConservative(p.wSet.value, Rating(info), sf);
    WSetPctExact(p.wSet.value, Rating(info), sf, true);
    PutAllIsChange(regs, LimitWrites(p, info, false));
    SendEffect(p, info, false);
    SetControlOnly(p, info, false);
    EffectOfTwo(SetPctWrite(p, info), []);
    EffectOfTwo(ModeWrites(p, info, false), []);
  }

  /**
   Until then no register that the missing percentage belongs to is touched: with an export limit
   neither the percentage limit nor its enablement, with an import limit none of the set-point registers.
   */
  lemma ProtectionKeptWhilePending(base: ControlBase, regs: Registers, info: DeviceInfo)
    requires !RatingAvailable(info)
    ensures var after := Send(regs, ToParameters(base, true), info, false);
            && (base.opModExpLimW.Some?
                ==> after.wMaxLimPctEna == regs.wMaxLimPctEna && after.wMaxLimPct == regs.wMaxLimPct)
            && (OnlyImportLimit(base) ==>
                  after == regs.(wMaxLimPctEna := after.wMaxLimPctEna, wMaxLimPct := after.wMaxLimPct))
  {
    var p := ToParameters(base, true);
    NothingDerived(p, info);
    PutAllIsChange(regs, LimitWrites(p, info, false));
    SendEffect(p, info, false);
    ExportOnly(p, info, false);
    SetControlOnly(p, info, false);
  }

  /**
   However often the rating is missing: once a reading has it, the export limit and an import limit that
   nothing overrides are in force, derived from that reading, and nothing stays pending.
   */
  lemma LimitsAreEnforcedInTheEnd(base: ControlBase, regs: Registers, readings: seq<DeviceInfo>)
    requires readings != [] && readings[0].has704
    requires forall reading <- readings :: SameButRating(readings[0], reading)
    requires exists reading <- readings :: RatingAvailable(reading)
    ensures var (after, pending), info := ApplyRepeatedly(regs, ToParameters(base, true), readings),
                                          readings[Decisive(readings)];
            !pending && RatingAvailable(info) && InForce(after, base, info)
  {
    var info := readings[Decisive(readings)];
    assert SameButRating(readings[0], info);
    DeferralConverges(regs, ToParameters(base, true), readings);
    if base.opModExpLimW.Some? {
      ExportLimitIsEnforced(base, regs, info);
    }
    if OnlyImportLimit(base) {
      ImportLimitIsEnforced(base, regs, info);
    }
  }

  // When a written limit is one at all.

  /** What a send writes into the percentages and the watts does not read as "not implemented". */
  predicate Implemented(write: Write) {
    match write
    case WMaxLimPct(pct) => U16.Implemented(pct)
    case WSetPct(pct) => I16.Implemented(pct)
    case WSet(watts) => I32.Implemented(watts)
    case _ => true
  }

  /** The value behind a write, rescaled exactly, stays short of the sentinel. */
  ghost predicate Short(t: IntType, v: Option<ScaledValue>, sf: Option<i16>) {
    v.Some? && ShortOfSentinel(t, ExactlyRescaled(v.value, sf.UnwrapOr(0)))
  }

  /**
   A derived percentage always is a limit. An explicit percentage or a power in watts is one exactly if it does
   not reach the sentinel when it is rescaled; an explicit percentage is also outbid by a derived one.
   */
  lemma WrittenLimitsImplemented(p: Parameters, info: DeviceInfo, retryOnly: bool, write: Write)
    requires write in LimitWrites(p, info, retryOnly)
    ensures Implemented(write) <==>
            match write
            case WMaxLimPct(_) => DerivedMaxLimPct(p, info).Some? || Short(U16, p.wMaxLimPct, info.wMaxLimPctSf)
            case WSetPct(_) => p.wSetPct.None? || Short(I16, p.wSetPct, info.wSetPctSf)
            case WSet(_) => Short(I32, p.wSet, info.wSetSf)
            case _ => true
  {
    WriteOf(p, info, retryOnly, write);
    match write
    case WMaxLimPct(_) => MaxLimPctImplemented(p, info);
    case WSetPct(_) => SetPctImplemented(p, info);
    case WSet(_) => RescaleImplemented(I32, p.wSet.value, info.wSetSf.UnwrapOr(0));
    case _ =>
  }

  lemma WriteOf(p: Parameters, info: DeviceInfo, retryOnly: bool, write: Write)
    requires write in LimitWrites(p, info, retryOnly)
    ensures write.WMaxLimPct? ==> MaxLimPctWrite(p, info) == [write]
    ensures write.WSetPct? ==> SetPctWrite(p, info) == [write]
    ensures write.WSet? ==> WattsWrites(p, info, retryOnly) == [write]
  {
    assert || write in ExportWrites(p, info, retryOnly) || write in SetControlWrites(p, info, retryOnly)
           || write in WattsWrites(p, info, retryOnly) || write in ModeWrites(p, info, retryOnly);
  }

  lemma MaxLimPctImplemented(p: Parameters, info: DeviceInfo)
    requires MaxLimPctWrite(p, info) != []
    ensures Implemented(MaxLimPctWrite(p, info)[0])
       <==> DerivedMaxLimPct(p, info).Some? || Short(U16, p.wMaxLimPct, info.wMaxLimPctSf)
  {
    var sf := info.wMaxLimPctSf.UnwrapOr(0);
    if DerivedMaxLimPct(p, info).Some? {
      WMaxLimPctExact(p.wMaxLim.value, RatingRead(p, info).value, sf);
    } else {
      RescaleImplemented(U16, p.wMaxLimPct.value, sf);
    }
  }

  lemma SetPctImplemented(p: Parameters, info: DeviceInfo)
    requires SetPctWrite(p, info) != []
    ensures Implemented(SetPctWrite(p, info)[0]) <==> p.wSetPct.None? || Short(I16, p.wSetPct, info.wSetPctSf)
  {
    var sf := info.wSetPctSf.UnwrapOr(0);
    if p.wSetPct.None? {
      WSetPctExact(p.wSet.value, RatingRead(p, info).value, sf, p.wSetIsImportSiteLimit);
    } else {
      RescaleImplemented(I16, p.wSetPct.value, sf);
    }
  }

  /** An explicit limit of 100 % and a device that counts in thousandths: the percentage written is no limit. */
  lemma FullPercentageIsNotImplemented(base: ControlBase, regs: Registers, info: DeviceInfo)
    requires base.opModMaxLimW == Some(10000) && base.opModExpLimW.None?
    requires info.has704 && info.wMaxLimPctSf == Some(-3)
    ensures var after := Send(regs, ToParameters(base, true), info, false);
            after.wMaxLimPctEna == Enabled && !U16.Implemented(after.wMaxLimPct)
  {
    var p := ToParameters(base, true);
    PutAllIsChange(regs, LimitWrites(p, info, false));
    SendEffect(p, info, false);
    ExportOnly(p, info, false);
    EffectOfTwo(MaxLimPctWrite(p, info), []);
    RescaleExact(U16, p.wMaxLimPct.value, -3);
    assert Pow10(1) == 10 * Pow10(0);
  }
}
