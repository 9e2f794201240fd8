/**
 A connected device and the step-by-step sending of its parameters. Any exchange with it may fail,
 with a write either lost or carried out; whatever was sent is a beginning of the intended writes.
 */
module LimitDevice {
  import opened LimitRegisters
  import opened MachineInts
  import opened PercentDerivation
  import opened ScaledValues
  import opened Wrappers

  datatype Error = CommunicationTimeout | ConnectionFailed

  /** The fate of one exchange with the device. */
  datatype Exchange = Answered | LostRequest | LostReply

  /** Going from `before` to `after`, a beginning of `writes` was written, and all of them if `done`. */
  predicate Progress(before: seq<Write>, after: seq<Write>, writes: seq<Write>, done: bool) {
    before <= after <= before + writes && (done ==> after == before + writes)
  }

  /** After some writes are done, progress with the next ones is progress with all of them. */
  lemma Onward(before: seq<Write>, mid: seq<Write>, done: seq<Write>, next: seq<Write>, rest: seq<Write>)
    requires Progress(before, mid, done, true)
    ensures forall after, finished :: Progress(mid, after, next, finished) ==>
                                        Progress(before, after, done + next, finished)
                                        && Progress(before, after, done + next + rest, false)
  {
    forall after, finished | Progress(mid, after, next, finished)
      ensures Progress(before, after, done + next, finished) && Progress(before, after, done + next + rest, false)
    {
      assert before + (done + next) == mid + next;
      assert before + (done + next + rest) == mid + next + rest;
    }
  }

  lemma OnwardFirst(before: seq<Write>, first: seq<Write>, rest: seq<Write>)
    ensures forall after, finished :: Progress(before, after, first, finished)
                                      ==> Progress(before, after, first + rest, false)
  {
    Onward(before, before, [], first, rest);
    assert [] + first == first;
  }

  lemma OnwardLast(before: seq<Write>, mid: seq<Write>, done: seq<Write>, last: seq<Write>)
    requires Progress(before, mid, done, true)
    ensures forall after, finished :: Progress(mid, after, last, finished)
                                      ==> Progress(before, after, done + last, finished)
  {
    Onward(before, mid, done, last, []);
  }

  class Device {
    var info: DeviceInfo
    var regs: Registers
    var log: seq<Write>
    var exchanges: seq<Exchange>
    ghost const start: Registers
    /** Every exchange so far was answered. */
    ghost var healthy: bool

    /** The registers are what the logged writes made of them. */
    ghost predicate Valid()
      reads this
    {
      regs == PutAll(start, log)
    }

    constructor (info: DeviceInfo, regs: Registers, exchanges: seq<Exchange>)
      ensures Valid() && healthy && log == []
      ensures this.info == info && this.regs == regs && this.exchanges == exchanges
    {
      this.info, this.regs, this.log, this.exchanges := info, regs, [], exchanges;
      this.start, this.healthy := regs, true;
    }

    /** The device's rating and its scale factor may change at any time. */
    method Rerate(wMaxRtg: Option<u16>, wSf: Option<i16>)
      modifies `info
      ensures info == old(info).(wMaxRtg := wMaxRtg, wSf := wSf)
    {
      info := info.(wMaxRtg := wMaxRtg, wSf := wSf);
    }

    method Exchanged() returns (fate: Exchange)
      modifies `exchanges, `healthy
      ensures fate == if old(exchanges) == [] then LostRequest else old(exchanges)[0]
      ensures exchanges == if old(exchanges) == [] then [] else old(exchanges)[1..]
      ensures healthy == (old(healthy) && fate.Answered?)
    {
      if exchanges == [] {
        healthy := false;
        return LostRequest;
      }
      fate := exchanges[0];
      exchanges := exchanges[1..];
      healthy := healthy && fate.Answered?;
    }

    method ReadPoint<T>(value: T) returns (r: Result<T, Error>)
      modifies `exchanges, `healthy
      ensures healthy == (old(healthy) && r.Ok?)
      ensures r.Ok? ==> r.value == value
    {
      var fate := Exchanged();
      return if fate.Answered? then Ok(value) else Err(ConnectionFailed);
    }

    method WritePoint(write: Write) returns (r: Result<(), Error>)
      requires Valid()
      modifies `exchanges, `healthy, `regs, `log
      ensures healthy == (old(healthy) && r.Ok?)
      ensures Valid() && Progress(old(log), log, [write], r.Ok?)
    {
      var fate := Exchanged();
      if fate.LostRequest? { return Err(ConnectionFailed); }
      PutAllConcat(start, log, [write]);
      assert [write][1..] == [];
      regs := Put(regs, write);
      log := log + [write];
      return if fate.Answered? then Ok(()) else Err(ConnectionFailed);
    }

    method WriteWords(words: seq<int>) returns (r: Result<(), Error>)
      requires Valid()
      modifies `exchanges, `healthy, `regs, `log
      ensures healthy == (old(healthy) && r.Ok?)
      ensures Valid() && Progress(old(log), log, Words(words), r.Ok?)
    {
      for i := 0 to |words|
        invariant Valid() && healthy == old(healthy) && log == old(log) + Words(words)[..i]
      {
        var _ :- WritePoint(Elsewhere(words[i]));
        assert Words(words)[..i + 1] == Words(words)[..i] + [Elsewhere(words[i])];
      }
      return Ok(());
    }

    method ReadRating(p: Parameters) returns (r: Result<Option<U16Value>, Error>)
      modifies `exchanges, `healthy
      ensures healthy == (old(healthy) && r.Ok?)
      ensures r.Ok? ==> r.value == RatingRead(p, info)
    {
      var derivesSetPct := p.wSetPct.None? && p.wSet.Some?;
      if !(p.wMaxLim.Some? || derivesSetPct) || !info.has702 { return Ok(None); }
      var rating :- ReadPoint(info.wMaxRtg);
      if rating.None? { return Ok(None); }
      var sf :- ReadPoint(info.wSf);
      return Ok(Some(ScaledValue(rating.value, sf.UnwrapOr(0))));
    }

    /** The scale factor, the explicit and the derived percentage limit. */
    method ReadMaxLimPct(p: Parameters, rating: Option<U16Value>)
      returns (r: Result<(Option<i16>, Option<U16Value>, Option<U16Value>), Error>)
      requires rating == RatingRead(p, info)
      modifies `exchanges, `healthy
      ensures healthy == (old(healthy) && r.Ok?)
      ensures r.Ok? ==> r.value == (MaxLimPctSf(p, info), ExplicitMaxLimPct(p, info), DerivedMaxLimPct(p, info))
    {
      if p.wMaxLimPct.None? && (p.wMaxLim.None? || rating.None?) { return Ok((None, None, None)); }
      var read :- ReadPoint(info.wMaxLimPctSf);
      var sf := read.UnwrapOr(0);
      var explicit: Option<U16Value>, derived: Option<U16Value> := None, None;
      if p.wMaxLimPct.Some? { explicit := Some(Rescale(U16, p.wMaxLimPct.value, sf)); }
      if p.wMaxLim.Some? && rating.Some? { derived := WMaxLimPctFromWMaxLim(p.wMaxLim.value, rating.value, sf); }
      return Ok((Some(sf), explicit, derived));
    }

    /** The percentage limit; returns whether it is deferred. */
    method SendExport(p: Parameters, rating: Option<U16Value>, retryOnly: bool) returns (r: Result<bool, Error>)
      requires Valid() && rating == RatingRead(p, info)
      modifies `exchanges, `healthy, `regs, `log
      ensures healthy == (old(healthy) && r.Ok?)
      ensures Valid() && Progress(old(log), log, ExportWrites(p, info, retryOnly), r.Ok?)
      ensures r.Ok? ==> r.value == ((!retryOnly || p.wMaxLim.Some?) && MaxLimPending(p, info))
    {
      var read :- ReadMaxLimPct(p, rating);
      var (sf, explicit, derived) := read;
      if retryOnly && p.wMaxLim.None? { return Ok(false); }
      if p.wMaxLim.Some? && derived.None? { return Ok(true); }
      var pct := explicit;
      if derived.Some? && (explicit.None? || derived.value.value < explicit.value.value) { pct := derived; }
      var ena := p.wMaxLimPctEna;
      if pct.Some? && (ena.None?
                       || (ena == Some(Disabled) && p.wMaxLimPct.None? && p.wMaxLim.Some?)) { ena := Some(Enabled); }
      assert pct == ChosenMaxLimPct(p, info) && ena == ChosenMaxLimEna(p, info);
      var raw := if sf.Some? && pct.Some? then Some(Rescale(U16, pct.value, sf.value).value) else None;
      assert ExportWrites(p, info, retryOnly) ==
             (if ena.Some? then [WMaxLimPctEna(ena.value)] else [])
             + (if raw.Some? then [WMaxLimPct(raw.value)] else []);
      var _ :- WriteLimit(ena, raw);
      return Ok(false);
    }

    method WriteLimit(ena: Option<Enablement>, raw: Option<int>) returns (r: Result<(), Error>)
      requires Valid()
      modifies `exchanges, `healthy, `regs, `log
      ensures healthy == (old(healthy) && r.Ok?)
      ensures Valid()
      ensures Progress(old(log), log, (if ena.Some? then [WMaxLimPctEna(ena.value)] else [])
                       + (if raw.Some? then [WMaxLimPct(raw.value)] else []), r.Ok?)
    {
      if ena.Some? { var _ :- WritePoint(WMaxLimPctEna(ena.value)); }
      if raw.Some? { var _ :- WritePoint(WMaxLimPct(raw.value)); }
      return Ok(());
    }

    /** The enablement and percentage of the set point; returns the percentage. */
    method SendSetControl(p: Parameters, rating: Option<U16Value>, retryOnly: bool)
      returns (r: Result<Option<I16Value>, Error>)
      requires Valid() && rating == RatingRead(p, info)
      modifies `exchanges, `healthy, `regs, `log
      ensures healthy == (old(healthy) && r.Ok?)
      ensures Valid() && Progress(old(log), log, SetControlWrites(p, info, retryOnly), r.Ok?)
      ensures r.Ok? ==> r.value == ChosenSetPct(p, info)
    {
      var derives := p.wSetPct.None? && p.wSet.Some?;
      var sf: Option<i16> := None;
      if p.wSetPct.Some? || (derives && rating.Some?) {
        var read :- ReadPoint(info.wSetPctSf);
        sf := Some(read.UnwrapOr(0));
      }
      var pct := p.wSetPct;
      if derives && rating.Some? {
        pct := WSetPctFromWSet(p.wSet.value, rating.value, sf.value, p.wSetIsImportSiteLimit);
      }
      assert pct == ChosenSetPct(p, info) && sf == SetPctSf(p, info);
      if (retryOnly && !derives) || (p.wSetIsImportSiteLimit && derives && pct.None?) { return Ok(pct); }
      if (!retryOnly || p.wSetIsImportSiteLimit) && p.wSetEna.Some? { var _ :- WritePoint(WSetEna(p.wSetEna.value)); }
      if sf.Some? && pct.Some? { var _ :- WritePoint(WSetPct(Rescale(I16, pct.value, sf.value).value)); }
      return Ok(pct);
    }

    method SendWatts(p: Parameters, pct: Option<I16Value>, retryOnly: bool) returns (r: Result<(), Error>)
      requires Valid() && pct == ChosenSetPct(p, info)
      modifies `exchanges, `healthy, `regs, `log
      ensures healthy == (old(healthy) && r.Ok?)
      ensures Valid() && Progress(old(log), log, WattsWrites(p, info, retryOnly), r.Ok?)
    {
      var pending := p.wSetPct.None? && p.wSet.Some? && pct.None?;
      if p.wSet.Some? && !retryOnly && !(p.wSetIsImportSiteLimit && pct.Some?)
         && !(p.wSetIsImportSiteLimit && pending) {
        var read :- ReadPoint(info.wSetSf);
        var _ :- WritePoint(WSet(Rescale(I32, p.wSet.value, read.UnwrapOr(0)).value));
      }
      return Ok(());
    }

    method SendMode(p: Parameters, pct: Option<I16Value>, retryOnly: bool) returns (r: Result<(), Error>)
      requires Valid() && pct == ChosenSetPct(p, info)
      modifies `exchanges, `healthy, `regs, `log
      ensures healthy == (old(healthy) && r.Ok?)
      ensures Valid() && Progress(old(log), log, ModeWrites(p, info, retryOnly), r.Ok?)
    {
      var derives := p.wSetPct.None? && p.wSet.Some?;
      var mode := if p.wSetIsImportSiteLimit && pct.Some? then Some(WMaxPct) else p.wSetMod;
      if (!retryOnly || derives) && !(p.wSetIsImportSiteLimit && derives && pct.None?)
         && (!retryOnly || p.wSetIsImportSiteLimit) {
        if mode.Some? { var _ :- WritePoint(WSetMode(mode.value)); }
      }
      return Ok(());
    }

    /** The whole set point; returns whether its percentage is deferred. */
    method SendSetPoint(p: Parameters, rating: Option<U16Value>, retryOnly: bool) returns (r: Result<bool, Error>)
      requires Valid() && rating == RatingRead(p, info)
      modifies `exchanges, `healthy, `regs, `log
      ensures healthy == (old(healthy) && r.Ok?)
      ensures Valid()
      ensures Progress(old(log), log, SetControlWrites(p, info, retryOnly) + WattsWrites(p, info, retryOnly)
                       + ModeWrites(p, info, retryOnly), r.Ok?)
      ensures r.Ok? ==> r.value == SetPctPending(p, info)
    {
      ghost var control, watts, mode := SetControlWrites(p, info, retryOnly), WattsWrites(p, info, retryOnly),
                                        ModeWrites(p, info, retryOnly);
      OnwardFirst(log, control, watts + mode);
      assert control + (watts + mode) == control + watts + mode;
      var pct :- SendSetControl(p, rating, retryOnly);
      Onward(old(log), log, control, watts, mode);
      var _ :- SendWatts(p, pct, retryOnly);
      OnwardLast(old(log), log, control + watts, mode);
      var _ :- SendMode(p, pct, retryOnly);
      return Ok(p.wSetPct.None? && p.wSet.Some? && pct.None?);
    }

    /** All limits, fresh or as a retry; returns whether something is deferred. */
    method SendLimits(p: Parameters, retryOnly: bool) returns (r: Result<bool, Error>)
      requires Valid()
      modifies `exchanges, `healthy, `regs, `log
      ensures healthy == (old(healthy) && r.Ok?)
      ensures Valid() && Progress(old(log), log, LimitWrites(p, info, retryOnly), r.Ok?)
      ensures r.Ok? ==> r.value == Deferred(p, info, retryOnly)
    {
      if !info.has704 { return Ok(false); }
      ghost var limit, control := ExportWrites(p, info, retryOnly), SetControlWrites(p, info, retryOnly);
      ghost var watts, mode := WattsWrites(p, info, retryOnly), ModeWrites(p, info, retryOnly);
      assert limit + (control + watts + mode) == LimitWrites(p, info, retryOnly);
      OnwardFirst(log, limit, control + watts + mode);
      var rating :- ReadRating(p);
      var limitDeferred :- SendExport(p, rating, retryOnly);
      OnwardLast(old(log), log, limit, control + watts + mode);
      var setPointDeferred :- SendSetPoint(p, rating, retryOnly);
      return Ok(limitDeferred || setPointDeferred);
    }

    /** Everything; returns whether something is deferred. */
    method SendParameters(p: Parameters) returns (r: Result<bool, Error>)
      requires Valid()
      modifies `exchanges, `healthy, `regs, `log
      ensures healthy == (old(healthy) && r.Ok?)
      ensures Valid() && Progress(old(log), log, FullWrites(p, info), r.Ok?)
      ensures r.Ok? ==> r.value == Deferred(p, info, false)
    {
      ghost var first, limits, last := Words(p.beforeLimits), LimitWrites(p, info, false), Words(p.afterLimits);
      OnwardFirst(log, first, limits + last);
      assert first + (limits + last) == FullWrites(p, info);
      var _ :- WriteWords(p.beforeLimits);
      Onward(old(log), log, first, limits, last);
      var deferred :- SendLimits(p, false);
      OnwardLast(old(log), log, first + limits, last);
      var _ :- WriteWords(p.afterLimits);
      return Ok(deferred);
    }
  }
}
