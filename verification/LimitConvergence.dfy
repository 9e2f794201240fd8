/**
 Deferred limits converge: sending while the rating is unavailable, retrying any number of times and
 then once with the rating leaves the registers as one send with the rating would have done.
 */
module LimitConvergence {
  import opened LimitRegisters
  import opened Wrappers

  // The effect of a list of writes, register by register.

  datatype Effect = Effect(
    maxEna: Option<Enablement>,
    maxPct: Option<int>,
    setEna: Option<Enablement>,
    setPct: Option<int>,
    watts: Option<int>,
    mode: Option<WSetMod>)

  const NO_EFFECT := Effect(None, None, None, None, None, None)

  function Single(write: Write): Effect {
    match write
    case WMaxLimPctEna(ena) => NO_EFFECT.(maxEna := Some(ena))
    case WMaxLimPct(pct) => NO_EFFECT.(maxPct := Some(pct))
    case WSetEna(ena) => NO_EFFECT.(setEna := Some(ena))
    case WSetPct(pct) => NO_EFFECT.(setPct := Some(pct))
    case WSetMode(mode) => NO_EFFECT.(mode := Some(mode))
    case WSet(watts) => NO_EFFECT.(watts := Some(watts))
    case Elsewhere(_) => NO_EFFECT
  }

  function Latest<T>(now: Option<T>, later: Option<T>): Option<T> {
    if later.Some? then later else now
  }

  function Then(now: Effect, later: Effect): Effect {
    Effect(
      Latest(now.maxEna, later.maxEna), Latest(now.maxPct, later.maxPct), Latest(now.setEna, later.setEna),
      Latest(now.setPct, later.setPct), Latest(now.watts, later.watts), Latest(now.mode, later.mode))
  }

  function EffectOf(writes: seq<Write>): Effect {
    if writes == [] then NO_EFFECT else Then(Single(writes[0]), EffectOf(writes[1..]))
  }

  function Change(regs: Registers, e: Effect): Registers {
    Registers(
      e.maxEna.UnwrapOr(regs.wMaxLimPctEna), e.maxPct.UnwrapOr(regs.wMaxLimPct),
      e.setEna.UnwrapOr(regs.wSetEna), e.setPct.UnwrapOr(regs.wSetPct),
      e.mode.UnwrapOr(regs.wSetMod), e.watts.UnwrapOr(regs.wSet))
  }

  lemma {:induction false} PutAllIsChange(regs: Registers, writes: seq<Write>)
    ensures PutAll(regs, writes) == Change(regs, EffectOf(writes))
    decreases |writes|
  {
    if writes != [] {
      PutAllIsChange(Put(regs, writes[0]), writes[1..]);
    }
  }

  lemma {:induction false} EffectOfConcat(a: seq<Write>, b: seq<Write>)
    ensures EffectOf(a + b) == Then(EffectOf(a), EffectOf(b))
    decreases |a|
  {
    if a == [] {
      assert a + b == b;
    } else {
      assert (a + b)[1..] == a[1..] + b;
      EffectOfConcat(a[1..], b);
    }
  }

  lemma EffectOfTwo(a: seq<Write>, b: seq<Write>)
    requires |a| <= 1 && |b| <= 1
    ensures EffectOf(a) == if a == [] then NO_EFFECT else Single(a[0])
    ensures EffectOf(a + b) == Then(EffectOf(a), if b == [] then NO_EFFECT else Single(b[0]))
  {
    EffectOfConcat(a, b);
  }

  /** The effect of each of the four groups of writes, and of the whole send. */
  function ExportEffect(p: Parameters, info: DeviceInfo, retryOnly: bool): Effect {
    EffectOf(ExportWrites(p, info, retryOnly))
  }

  function SetControlEffect(p: Parameters, info: DeviceInfo, retryOnly: bool): Effect {
    EffectOf(SetControlWrites(p, info, retryOnly))
  }

  function WattsEffect(p: Parameters, info: DeviceInfo, retryOnly: bool): Effect {
    EffectOf(WattsWrites(p, info, retryOnly))
  }

  function ModeEffect(p: Parameters, info: DeviceInfo, retryOnly: bool): Effect {
    EffectOf(ModeWrites(p, info, retryOnly))
  }

  /** The order of the registers in a send: an enablement before its value, and the mode last. */
  function Rank(write: Write): nat {
    match write
    case Elsewhere(_) => 0
    case WMaxLimPctEna(_) => 1
    case WMaxLimPct(_) => 2
    case WSetEna(_) => 3
    case WSetPct(_) => 4
    case WSet(_) => 5
    case WSetMode(_) => 6
  }

  /** Only registers of these ranks, none of them twice, in the order of their ranks. */
  ghost predicate InOrder(writes: seq<Write>, least: nat, most: nat) {
    && (forall i :: 0 <= i < |writes| ==> least <= Rank(writes[i]) <= most)
    && (forall i, j :: 0 <= i < j < |writes| ==> Rank(writes[i]) < Rank(writes[j]))
  }

  lemma InOrderConcat(a: seq<Write>, b: seq<Write>, least: nat, mid: nat, most: nat)
    requires InOrder(a, least, mid) && InOrder(b, mid + 1, most) && least <= mid <= most
    ensures InOrder(a + b, least, most)
  {
  }

  /** A send or retry writes limit registers only, none of them twice, and in this order. */
  lemma WritesInOrder(p: Parameters, info: DeviceInfo, retryOnly: bool)
    ensures InOrder(LimitWrites(p, info, retryOnly), 1, 6)
  {
    var e, s, w, m := ExportWrites(p, info, retryOnly), SetControlWrites(p, info, retryOnly),
                      WattsWrites(p, info, retryOnly), ModeWrites(p, info, retryOnly);
    ExportInOrder(p, info, retryOnly);
    SetControlInOrder(p, info, retryOnly);
    InOrderConcat(e, s, 1, 2, 4);
    InOrderConcat(e + s, w, 1, 4, 5);
    InOrderConcat(e + s + w, m, 1, 5, 6);
  }

  lemma ExportInOrder(p: Parameters, info: DeviceInfo, retryOnly: bool)
    ensures InOrder(ExportWrites(p, info, retryOnly), 1, 2)
  {
    var ena := match ChosenMaxLimEna(p, info) case None => [] case Some(ena) => [WMaxLimPctEna(ena)];
    InOrderConcat(ena, MaxLimPctWrite(p, info), 1, 1, 2);
  }

  lemma SetControlInOrder(p: Parameters, info: DeviceInfo, retryOnly: bool)
    ensures InOrder(SetControlWrites(p, info, retryOnly), 3, 4)
  {
    var ena := if (!retryOnly || p.wSetIsImportSiteLimit) && p.wSetEna.Some? then [WSetEna(p.wSetEna.value)] else [];
    InOrderConcat(ena, SetPctWrite(p, info), 3, 3, 4);
  }

  /** Each group has registers of its own. */
  function Joined(limit: Effect, control: Effect, watts: Effect, mode: Effect): Effect {
    Effect(limit.maxEna, limit.maxPct, control.setEna, control.setPct, watts.watts, mode.mode)
  }

  lemma SendEffect(p: Parameters, info: DeviceInfo, retryOnly: bool)
    ensures EffectOf(LimitWrites(p, info, retryOnly)) ==
            if !info.has704 then NO_EFFECT
            else Joined(ExportEffect(p, info, retryOnly), SetControlEffect(p, info, retryOnly),
                        WattsEffect(p, info, retryOnly), ModeEffect(p, info, retryOnly))
  {
    var e, s, w, m := ExportWrites(p, info, retryOnly), SetControlWrites(p, info, retryOnly),
                      WattsWrites(p, info, retryOnly), ModeWrites(p, info, retryOnly);
    EffectOfConcat(e + s + w, m);
    EffectOfConcat(e + s, w);
    EffectOfConcat(e, s);
    ExportOnly(p, info, retryOnly);
    SetControlOnly(p, info, retryOnly);
    EffectOfTwo(w, []);
    EffectOfTwo(m, []);
    if info.has704 {
      JoinGroups(EffectOf(e), EffectOf(s), EffectOf(w), EffectOf(m));
    }
  }

  lemma JoinGroups(e: Effect, s: Effect, w: Effect, m: Effect)
    requires e == NO_EFFECT.(maxEna := e.maxEna, maxPct := e.maxPct)
             && s == NO_EFFECT.(setEna := s.setEna, setPct := s.setPct)
    requires w == NO_EFFECT.(watts := w.watts) && m == NO_EFFECT.(mode := m.mode)
    ensures Then(Then(Then(e, s), w), m) == Joined(e, s, w, m)
  {
  }

  lemma ExportOnly(p: Parameters, info: DeviceInfo, retryOnly: bool)
    ensures ExportEffect(p, info, retryOnly) ==
            if (!retryOnly || p.wMaxLim.Some?) && !MaxLimPending(p, info) then
              NO_EFFECT.(maxEna := ChosenMaxLimEna(p, info), maxPct := EffectOf(MaxLimPctWrite(p, info)).maxPct)
            else NO_EFFECT
  {
    var ena := match ChosenMaxLimEna(p, info) case None => [] case Some(ena) => [WMaxLimPctEna(ena)];
    EffectOfTwo(ena, MaxLimPctWrite(p, info));
    EffectOfTwo(MaxLimPctWrite(p, info), []);
  }

  lemma SetControlOnly(p: Parameters, info: DeviceInfo, retryOnly: bool)
    ensures SetControlEffect(p, info, retryOnly) ==
            if (!retryOnly || DerivesWSetPct(p)) && !ImportPending(p, info) then
              NO_EFFECT.(setEna := if !retryOnly || p.wSetIsImportSiteLimit then p.wSetEna
              else None, setPct := EffectOf(SetPctWrite(p, info)).setPct)
            else NO_EFFECT
  {
    var ena := if (!retryOnly || p.wSetIsImportSiteLimit) && p.wSetEna.Some? then [WSetEna(p.wSetEna.value)] else [];
    EffectOfTwo(ena, SetPctWrite(p, info));
    EffectOfTwo(SetPctWrite(p, info), []);
  }

  /** One deferred send followed by one retry with the rating does what one send with the rating does. */
  lemma DeferThenRetry(p: Parameters, without: DeviceInfo, with: DeviceInfo)
    requires SameButRating(without, with)
    requires !RatingAvailable(without) && RatingAvailable(with)
    ensures Then(EffectOf(LimitWrites(p, without, false)), EffectOf(LimitWrites(p, with, true)))
         == EffectOf(LimitWrites(p, with, false))
  {
    SendEffect(p, without, false);
    SendEffect(p, with, true);
    SendEffect(p, with, false);
    ExportDeferThenRetry(p, without, with);
    SetControlDeferThenRetry(p, without, with);
    WattsDeferThenRetry(p, without, with);
    ModeDeferThenRetry(p, without, with);
    if with.has704 {
      JoinedThen(
        ExportEffect(p, without, false), SetControlEffect(p, without, false), WattsEffect(p, without, false),
        ModeEffect(p, without, false),
        ExportEffect(p, with, true), SetControlEffect(p, with, true), WattsEffect(p, with, true),
        ModeEffect(p, with, true));
    }
  }

  lemma JoinedThen(e: Effect, s: Effect, w: Effect, m: Effect, e': Effect, s': Effect, w': Effect, m': Effect)
    ensures Then(Joined(e, s, w, m), Joined(e', s', w', m'))
         == Joined(Then(e, e'), Then(s, s'), Then(w, w'), Then(m, m'))
  {
  }

  lemma WattsDeferThenRetry(p: Parameters, without: DeviceInfo, with: DeviceInfo)
    requires SameButRating(without, with)
    requires !RatingAvailable(without) && RatingAvailable(with)
    ensures Then(WattsEffect(p, without, false), WattsEffect(p, with, true)) == WattsEffect(p, with, false)
  {
    NothingDerived(p, without);
    AllDerived(p, with);
    assert WattsWrites(p, with, true) == [];
    assert WattsWrites(p, without, false) == WattsWrites(p, with, false);
  }

  lemma ModeDeferThenRetry(p: Parameters, without: DeviceInfo, with: DeviceInfo)
    requires SameButRating(without, with)
    requires !RatingAvailable(without) && RatingAvailable(with)
    ensures Then(ModeEffect(p, without, false), ModeEffect(p, with, true)) == ModeEffect(p, with, false)
  {
    NothingDerived(p, without);
    AllDerived(p, with);
    assert ModeWrites(p, without, false) == [] || ModeWrites(p, with, true) == [];
    assert ModeWrites(p, with, true) == [] ==> ModeWrites(p, without, false) == ModeWrites(p, with, false);
    assert ModeWrites(p, with, true) != [] ==> ModeWrites(p, with, true) == ModeWrites(p, with, false);
  }

  lemma ExportDeferThenRetry(p: Parameters, without: DeviceInfo, with: DeviceInfo)
    requires SameButRating(without, with)
    requires !RatingAvailable(without) && RatingAvailable(with)
    ensures Then(ExportEffect(p, without, false), ExportEffect(p, with, true)) == ExportEffect(p, with, false)
  {
    ExportOnly(p, without, false);
    ExportOnly(p, with, true);
    ExportOnly(p, with, false);
    NothingDerived(p, without);
    AllDerived(p, with);
  }

  lemma SetControlDeferThenRetry(p: Parameters, without: DeviceInfo, with: DeviceInfo)
    requires SameButRating(without, with)
    requires !RatingAvailable(without) && RatingAvailable(with)
    ensures Then(SetControlEffect(p, without, false), SetControlEffect(p, with, true))
         == SetControlEffect(p, with, false)
  {
    SetControlOnly(p, without, false);
    SetControlOnly(p, with, true);
    SetControlOnly(p, with, false);
    NothingDerived(p, without);
    AllDerived(p, with);
  }

  // What the registers hold after a send.

  /** Every register that a send of `p` writes already holds its value: writing it again changes nothing. */
  ghost predicate Holds(regs: Registers, p: Parameters, info: DeviceInfo) {
    forall write <- LimitWrites(p, info, false) :: Put(regs, write) == regs
  }

  lemma HoldsWhenSendChangesNothing(regs: Registers, p: Parameters, info: DeviceInfo)
    ensures Holds(regs, p, info) <==> Send(regs, p, info, false) == regs
  {
    var writes := LimitWrites(p, info, false);
    if Holds(regs, p, info) {
      NothingToPut(regs, writes);
    }
    if Send(regs, p, info, false) == regs {
      PutAllIsChange(regs, writes);
      SendEffect(p, info, false);
      forall write | write in writes ensures Put(regs, write) == regs {
        WriteDecides(regs, p, info, write);
      }
    }
  }

  lemma {:induction false} NothingToPut(regs: Registers, writes: seq<Write>)
    requires forall write <- writes :: Put(regs, write) == regs
    ensures PutAll(regs, writes) == regs
    decreases |writes|
  {
    if writes != [] {
      assert Put(regs, writes[0]) == regs;
      NothingToPut(regs, writes[1..]);
    }
  }

  /** Each register is written at most once in a send, so its write decides the register's value. */
  lemma WriteDecides(regs: Registers, p: Parameters, info: DeviceInfo, write: Write)
    requires write in LimitWrites(p, info, false)
    requires Change(regs, EffectOf(LimitWrites(p, info, false))) == regs
    ensures Put(regs, write) == regs
  {
    SendEffect(p, info, false);
    if write in ExportWrites(p, info, false) {
      ExportOnly(p, info, false);
      EffectOfTwo(MaxLimPctWrite(p, info), []);
    } else if write in SetControlWrites(p, info, false) {
      SetControlOnly(p, info, false);
      EffectOfTwo(SetPctWrite(p, info), []);
    } else if write in WattsWrites(p, info, false) {
      EffectOfTwo(WattsWrites(p, info, false), []);
    } else {
      EffectOfTwo(ModeWrites(p, info, false), []);
    }
  }

  lemma HoldsAfterSend(regs: Registers, p: Parameters, info: DeviceInfo)
    ensures Holds(Send(regs, p, info, false), p, info)
  {
    var writes := LimitWrites(p, info, false);
    PutAllIsChange(regs, writes);
    PutAllIsChange(Send(regs, p, info, false), writes);
    HoldsWhenSendChangesNothing(Send(regs, p, info, false), p, info);
  }

  /** A send that needs no rating, or has none, writes the same whatever the rating is. */
  lemma SendIgnoresRating(p: Parameters, a: DeviceInfo, b: DeviceInfo)
    requires SameButRating(a, b)
    requires !NeedsRating(p) || (!RatingAvailable(a) && !RatingAvailable(b))
    ensures LimitWrites(p, a, false) == LimitWrites(p, b, false)
  {
    if NeedsRating(p) {
      NothingDerived(p, a);
      NothingDerived(p, b);
    }
    assert ExportWrites(p, a, false) == ExportWrites(p, b, false);
    assert SetControlWrites(p, a, false) == SetControlWrites(p, b, false);
    assert WattsWrites(p, a, false) == WattsWrites(p, b, false);
    assert ModeWrites(p, a, false) == ModeWrites(p, b, false);
  }

  /** The retry that finds the rating completes the deferred send. */
  lemma RetryCompletes(regs: Registers, p: Parameters, without: DeviceInfo, with: DeviceInfo)
    requires SameButRating(without, with)
    requires !RatingAvailable(without) && RatingAvailable(with)
    ensures Send(Send(regs, p, without, false), p, with, true) == Send(regs, p, with, false)
    ensures Holds(regs, p, without) ==> Holds(Send(regs, p, with, true), p, with)
  {
    DeferThenRetry(p, without, with);
    PutAllIsChange(regs, LimitWrites(p, without, false));
    PutAllIsChange(Send(regs, p, without, false), LimitWrites(p, with, true));
    PutAllIsChange(regs, LimitWrites(p, with, false));
    HoldsWhenSendChangesNothing(regs, p, without);
    HoldsAfterSend(regs, p, with);
  }

  lemma {:induction false} WordsElsewhere(regs: Registers, words: seq<int>)
    ensures PutAll(regs, Words(words)) == regs
    decreases |words|
  {
    if words != [] {
      assert Words(words)[1..] == Words(words[1..]);
      WordsElsewhere(regs, words[1..]);
    }
  }

  lemma HoldsAfterFullSend(regs: Registers, p: Parameters, info: DeviceInfo)
    ensures Holds(PutAll(regs, FullWrites(p, info)), p, info)
  {
    var first, limits, last := Words(p.beforeLimits), LimitWrites(p, info, false), Words(p.afterLimits);
    PutAllConcat(regs, first + limits, last);
    PutAllConcat(regs, first, limits);
    WordsElsewhere(regs, p.beforeLimits);
    WordsElsewhere(PutAll(regs, first + limits), p.afterLimits);
    HoldsAfterSend(regs, p, info);
  }

  /** A retry keeps the registers true to the parameters, whether or not the rating has appeared. */
  lemma HoldsAfterRetry(regs: Registers, p: Parameters, last: DeviceInfo, info: DeviceInfo)
    requires SameButRating(last, info)
    requires Deferred(p, last, false) && Holds(regs, p, last)
    ensures Holds(Send(regs, p, info, true), p, info)
    ensures Deferred(p, info, true) == Deferred(p, info, false) == !RatingAvailable(info)
  {
    DeferredWhen(p, last, false);
    DeferredWhen(p, info, false);
    DeferredWhen(p, info, true);
    if RatingAvailable(info) {
      RetryCompletes(regs, p, last, info);
    } else {
      RetryWithoutRating(p, info);
      SendIgnoresRating(p, last, info);
    }
  }

  // Any number of retries.

  /** The registers and the pending flag after one fresh send and then, while pending, one retry per further reading. */
  function ApplyRepeatedly(regs: Registers, p: Parameters, readings: seq<DeviceInfo>): (Registers, bool)
    requires readings != []
  {
    var n := |readings| - 1;
    if n == 0 then (Send(regs, p, readings[0], false), Deferred(p, readings[0], false)) else
    var (before, pending) := ApplyRepeatedly(regs, p, readings[..n]);
    if pending then (Send(before, p, readings[n], true), Deferred(p, readings[n], true)) else (before, false)
  }

  /** The reading at which the parameters take full effect: the first with a rating, or the first of all. */
  function Decisive(readings: seq<DeviceInfo>): nat
    requires readings != []
    ensures Decisive(readings) < |readings|
    ensures RatingAvailable(readings[Decisive(readings)]) <==> exists reading <- readings :: RatingAvailable(reading)
  {
    if exists i :: 0 <= i < |readings| && RatingAvailable(readings[i]) then FirstAvailable(readings) else 0
  }

  function FirstAvailable(readings: seq<DeviceInfo>): (k: nat)
    requires exists i :: 0 <= i < |readings| && RatingAvailable(readings[i])
    ensures k < |readings| && RatingAvailable(readings[k])
    ensures forall i :: 0 <= i < k ==> !RatingAvailable(readings[i])
  {
    if RatingAvailable(readings[0]) then 0 else 1 + FirstAvailable(readings[1..])
  }

  /**
   However often the rating is missing, the outcome is that of a single send with the first reading
   that has it, and the retries stop there; without any such reading it is that of the first send
   alone, still pending if anything has to be derived.
   */
  lemma {:induction false} DeferralConverges(regs: Registers, p: Parameters, readings: seq<DeviceInfo>)
    requires readings != []
    requires forall reading <- readings :: SameButRating(readings[0], reading)
    ensures var decisive := readings[Decisive(readings)];
            ApplyRepeatedly(regs, p, readings) ==
            (Send(regs, p, decisive, false), readings[0].has704 && NeedsRating(p) && !RatingAvailable(decisive))
    decreases |readings|
  {
    var n := |readings| - 1;
    if n == 0 {
      DeferredWhen(p, readings[0], false);
    } else {
      DeferralConverges(regs, p, readings[..n]);
      OneMoreReading(regs, p, readings, ApplyRepeatedly(regs, p, readings[..n]).0);
    }
  }

  lemma DecisiveStep(readings: seq<DeviceInfo>)
    requires |readings| > 1
    ensures var n := |readings| - 1;
            Decisive(readings) ==
            if RatingAvailable(readings[Decisive(readings[..n])]) then Decisive(readings[..n])
            else if RatingAvailable(readings[n]) then n else 0
    ensures !RatingAvailable(readings[Decisive(readings[..|readings| - 1])])
            ==> Decisive(readings[..|readings| - 1]) == 0
  {
    var n := |readings| - 1;
    assert forall i :: 0 <= i < n ==> readings[..n][i] == readings[i];
  }

  lemma OneMoreReading(regs: Registers, p: Parameters, readings: seq<DeviceInfo>, before: Registers)
    requires |readings| > 1
    requires forall reading <- readings :: SameButRating(readings[0], reading)
    requires before == Send(regs, p, readings[Decisive(readings[..|readings| - 1])], false)
    ensures var n, decisive := |readings| - 1, readings[Decisive(readings)];
            var pending := readings[0].has704 && NeedsRating(p) && !RatingAvailable(readings[Decisive(readings[..n])]);
            (if pending then (Send(before, p, readings[n], true), Deferred(p, readings[n], true))
             else (before, false)) ==
            (Send(regs, p, decisive, false), readings[0].has704 && NeedsRating(p) && !RatingAvailable(decisive))
  {
    var n := |readings| - 1;
    var first, last, earlier := readings[0], readings[n], readings[Decisive(readings[..n])];
    DecisiveStep(readings);
    DeferredWhen(p, last, true);
    assert SameButRating(first, last);
    if !RatingAvailable(earlier) {
      if RatingAvailable(last) {
        RetryCompletes(regs, p, first, last);
        if first.has704 && !NeedsRating(p) {
          SendIgnoresRating(p, first, last);
        }
      } else {
        RetryWithoutRating(p, last);
      }
    }
  }
}
