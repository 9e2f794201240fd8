/**
 What the limit registers hold after the parameters of a control are sent, register by register in terms of
 the control itself, for every combination of its limits and set points.
 */
module SentRegisters {
  import opened LimitControls
  import opened LimitConvergence
  import opened LimitRegisters
  import opened MachineInts
  import opened PercentDerivation
  import opened ScaledValues
  import opened Wrappers

  /** Hundredths of a percent in steps of the device's scale, rounded and then bounded by the register's type. */
  ghost function Hundredths(t: IntType, value: int, sf: Option<i16>): int {
    Clamp(ExactlyRescaled(ScaledValue(value, -2), sf.UnwrapOr(0)), t.Min(), t.Max())
  }

  /** The site limit in watts as a percentage of the rating, rounded down and short of the largest value. */
  ghost function ExportPct(power: ActivePower, info: DeviceInfo): int
    requires RatingAvailable(info)
  {
    var watts := ScaledValue(Abs(power.value), power.multiplier);
    Clamp(ExactPercent(watts, Rating(info), info.wMaxLimPctSf.UnwrapOr(0), true), 0, 0xfffe)
  }

  /** The percentage limit: of an explicit and a derived percentage the smaller one holds. */
  ghost predicate MaxLimAsAsked(before: Registers, after: Registers, base: ControlBase, site: bool, info: DeviceInfo) {
    var siteLimit, explicit := if site then base.opModExpLimW else None, base.opModMaxLimW;
    if siteLimit.Some? && !RatingAvailable(info) then
      after.wMaxLimPctEna == before.wMaxLimPctEna && after.wMaxLimPct == before.wMaxLimPct
    else if siteLimit.None? && explicit.None? then
      after.wMaxLimPctEna == Disabled && after.wMaxLimPct == before.wMaxLimPct
    else
      && after.wMaxLimPctEna == Enabled
      && (siteLimit.None? ==> after.wMaxLimPct == Hundredths(U16, explicit.value, info.wMaxLimPctSf))
      && (explicit.None? ==> after.wMaxLimPct == ExportPct(siteLimit.value, info))
      && (siteLimit.Some? && explicit.Some? ==>
            var asked, derived := Hundredths(U16, explicit.value, info.wMaxLimPctSf), ExportPct(siteLimit.value, info);
            after.wMaxLimPct == if derived < asked then derived else asked)
  }

  /** The power in watts in steps of the device's scale. */
  ghost function TargetWatts(power: ActivePower, info: DeviceInfo): int {
    Clamp(ExactlyRescaled(ScaledValue(power.value, power.multiplier), info.wSetSf.UnwrapOr(0)), I32.Min(), I32.Max())
  }

  /** The power in watts as a percentage of the rating. */
  ghost function SetPct(watts: int, multiplier: i16, info: DeviceInfo, roundTowardZero: bool): int
    requires RatingAvailable(info)
  {
    Clamp(ExactPercent(ScaledValue(watts, multiplier), Rating(info), info.wSetPctSf.UnwrapOr(0), roundTowardZero),
          -0x7fff, 0x7fff)
  }

  /** A fixed percentage is in force whatever else is asked for; a target power is still written beside it. */
  ghost predicate FixedAsAsked(before: Registers, after: Registers, base: ControlBase, info: DeviceInfo)
    requires base.opModFixedW.Some?
  {
    && after.wSetEna == Enabled && after.wSetMod == WMaxPct
    && after.wSetPct == Hundredths(I16, base.opModFixedW.value, info.wSetPctSf)
    && after.wSet == if base.opModTargetW.Some? then TargetWatts(base.opModTargetW.value, info) else before.wSet
  }

  /** A target power is in force in watts, and the percentage follows once the device is rated. */
  ghost predicate TargetAsAsked(before: Registers, after: Registers, target: ActivePower, info: DeviceInfo) {
    && after.wSetEna == Enabled && after.wSetMod == Watts && after.wSet == TargetWatts(target, info)
    && after.wSetPct == if RatingAvailable(info) then SetPct(target.value, target.multiplier, info, false)
                        else before.wSetPct
  }

  /** An import limit is in force as a percentage of a negative power once the device is rated. */
  ghost predicate ImportAsAsked(before: Registers, after: Registers, limit: ActivePower, info: DeviceInfo) {
    && after.wSet == before.wSet
    && if RatingAvailable(info) then
         && after.wSetEna == Enabled && after.wSetMod == WMaxPct
         && after.wSetPct == SetPct(if limit.value < 0 then limit.value else -limit.value, limit.multiplier, info, true)
       else
         && after.wSetEna == before.wSetEna && after.wSetMod == before.wSetMod && after.wSetPct == before.wSetPct
  }

  /** A fixed percentage goes before a target power, and that before an import limit. */
  ghost predicate SetPointAsAsked(before: Registers, after: Registers, base: ControlBase, site: bool,
                                  info: DeviceInfo)
  {
    if base.opModFixedW.Some? then FixedAsAsked(before, after, base, info)
    else if base.opModTargetW.Some? then TargetAsAsked(before, after, base.opModTargetW.value, info)
    else if site && base.opModImpLimW.Some? then ImportAsAsked(before, after, base.opModImpLimW.value, info)
    else
      && after.wSetEna == Disabled
      && after.wSetMod == before.wSetMod && after.wSetPct == before.wSetPct && after.wSet == before.wSet
  }

  /** Every limit register holds what the control asks for, as far as the device's rating is known. */
  ghost predicate AsAsked(before: Registers, after: Registers, base: ControlBase, site: bool, info: DeviceInfo) {
    MaxLimAsAsked(before, after, base, site, info) && SetPointAsAsked(before, after, base, site, info)
  }

  /** A site limit in watts asks for a percentage of the rating, and so does a target without a fixed percentage. */
  predicate AsksForRating(base: ControlBase, site: bool) {
    || (site && base.opModExpLimW.Some?)
    || (base.opModFixedW.None? && (base.opModTargetW.Some? || (site && base.opModImpLimW.Some?)))
  }

  // One send.

  lemma MaxLimSent(regs: Registers, base: ControlBase, site: bool, info: DeviceInfo)
    requires info.has704
    ensures MaxLimAsAsked(regs, Send(regs, ToParameters(base, site), info, false), base, site, info)
  {
    var p, sf := ToParameters(base, site), info.wMaxLimPctSf.UnwrapOr(0);
    PutAllIsChange(regs, LimitWrites(p, info, false));
    SendEffect(p, info, false);
    ExportOnly(p, info, false);
    EffectOfTwo(MaxLimPctWrite(p, info), []);
    if p.wMaxLimPct.Some? {
      RescaleExact(U16, p.wMaxLimPct.value, sf);
    }
    if p.wMaxLim.Some? {
      if RatingAvailable(info) {
        WMaxLimPctExact(p.wMaxLim.value, Rating(info), sf);
      } else {
        NothingDerived(p, info);
      }
    }
  }

  /** What a send does to the four set-point registers. */
  lemma SetPointChange(regs: Registers, p: Parameters, info: DeviceInfo)
    requires info.has704
    ensures var after, pct := Send(regs, p, info, false), SetPctWrite(p, info);
            if ImportPending(p, info) then
              && after.wSetEna == regs.wSetEna && after.wSetPct == regs.wSetPct
              && after.wSetMod == regs.wSetMod && after.wSet == regs.wSet
            else
              && after.wSetEna == p.wSetEna.UnwrapOr(regs.wSetEna)
              && after.wSetPct == (if pct == [] then regs.wSetPct else pct[0].setPct)
              && after.wSetMod == (if ImportUsesPct(p, info) then WMaxPct else p.wSetMod.UnwrapOr(regs.wSetMod))
              && after.wSet == if p.wSet.Some? && !ImportUsesPct(p, info) then
                                 Rescale(I32, p.wSet.value, info.wSetSf.UnwrapOr(0)).value else regs.wSet
  {
    PutAllIsChange(regs, LimitWrites(p, info, false));
    SendEffect(p, info, false);
    SetControlOnly(p, info, false);
    EffectOfTwo(SetPctWrite(p, info), []);
    EffectOfTwo(WattsWrites(p, info, false), []);
    EffectOfTwo(ModeWrites(p, info, false), []);
  }

  lemma SetPointSent(regs: Registers, base: ControlBase, site: bool, info: DeviceInfo)
    requires info.has704
    ensures SetPointAsAsked(regs, Send(regs, ToParameters(base, site), info, false), base, site, info)
  {
    var p, sf := ToParameters(base, site), info.wSetPctSf.UnwrapOr(0);
    SetPointChange(regs, p, info);
    if p.wSet.Some? {
      RescaleExact(I32, p.wSet.value, info.wSetSf.UnwrapOr(0));
    }
    if p.wSetPct.Some? {
      RescaleExact(I16, p.wSetPct.value, sf);
    } else if p.wSet.Some? {
      if RatingAvailable(info) {
        WSetPctExact(p.wSet.value, Rating(info), sf, p.wSetIsImportSiteLimit);
      } else {
        NothingDerived(p, info);
      }
    }
  }

  /**
   Whatever a control asks for, sending its parameters once leaves every limit register as asked, and something
   is left pending exactly if a percentage of a rating that is not available is asked for.
   */
  lemma RegistersAreAsAsked(regs: Registers, base: ControlBase, site: bool, info: DeviceInfo)
    ensures var p := ToParameters(base, site);
            var after := Send(regs, p, info, false);
            && (if info.has704 then AsAsked(regs, after, base, site, info) else after == regs)
            && (Deferred(p, info, false) <==> info.has704 && AsksForRating(base, site) && !RatingAvailable(info))
  {
    DeferredWhen(ToParameters(base, site), info, false);
    if info.has704 {
      MaxLimSent(regs, base, site, info);
      SetPointSent(regs, base, site, info);
    }
  }

  /** However often the rating is missing, in the end the registers are as asked under the first reading with it. */
  lemma RegistersAreAsAskedInTheEnd(regs: Registers, base: ControlBase, site: bool, readings: seq<DeviceInfo>)
    requires readings != [] && readings[0].has704
    requires forall reading <- readings :: SameButRating(readings[0], reading)
    ensures var (after, pending), info := ApplyRepeatedly(regs, ToParameters(base, site), readings),
                                          readings[Decisive(readings)];
            && AsAsked(regs, after, base, site, info)
            && (pending <==> AsksForRating(base, site) && !RatingAvailable(info))
  {
    var info := readings[Decisive(readings)];
    assert SameButRating(readings[0], info);
    DeferralConverges(regs, ToParameters(base, site), readings);
    RegistersAreAsAsked(regs, base, site, info);
  }
}
