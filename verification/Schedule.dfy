/** Predicting when the parameters next may change, and that they do not change before. */
module Schedule {
  import opened Wrappers
  import opened ResourceTypes
  import opened ModelUpdates
  import opened ControlPriority
  import opened ParameterLayering

  /** A start or end of a control with the response it asks for. */
  datatype Boundary = Boundary(time: Seconds, response: seq<Event>)

  function BoundariesOf(control: ControlRef): seq<Boundary> {
    match control
    case DefaultRef(_) => []
    case ScheduledRef(s) => [
      Boundary(s.startTime, ResponseIfRequired(s.control, true, EventStarted)),
      Boundary(s.EndTime(), ResponseIfRequired(s.control, true, EventCompleted))
    ]
  }

  function After(boundaries: seq<Boundary>, now: Seconds): seq<Boundary> {
    if boundaries == [] then []
    // Strictly after: the boundary second itself already counts as active.
    else if boundaries[0].time > now then [boundaries[0]] + After(boundaries[1..], now)
    else After(boundaries[1..], now)
  }

  function FutureBoundaries(controls: seq<ControlRef>, now: Seconds): seq<Boundary> {
    if controls == [] then [] else After(BoundariesOf(controls[0]), now) + FutureBoundaries(controls[1..], now)
  }

  function Earliest(boundaries: seq<Boundary>): Option<Seconds> {
    if boundaries == [] then None else
    match Earliest(boundaries[1..])
    case None => Some(boundaries[0].time)
    case Some(t) => Some(if boundaries[0].time <= t then boundaries[0].time else t)
  }

  function ResponsesAt(boundaries: seq<Boundary>, time: Seconds): seq<Event> {
    if boundaries == [] then [] else
    (if boundaries[0].time == time then boundaries[0].response else []) + ResponsesAt(boundaries[1..], time)
  }

  datatype Prediction = Prediction(time: Option<Seconds>, events: seq<Event>)

  function CalcNextForControls(controls: seq<ControlRef>, now: Seconds): Prediction {
    var future := FutureBoundaries(controls, now);
    match Earliest(future)
    case None => Prediction(None, [])
    case Some(time) => Prediction(Some(time), ResponsesAt(future, time))
  }

  function CalcNext(m: ModelState, lfdi: Lfdi, now: Seconds): Prediction {
    CalcNextForControls(AllControls(m, lfdi, now), now)
  }

  // Boundaries as times.

  predicate HasTime(boundaries: seq<Boundary>, time: Seconds) {
    boundaries != [] && (boundaries[0].time == time || HasTime(boundaries[1..], time))
  }

  lemma {:induction false} HasTimeConcat(a: seq<Boundary>, b: seq<Boundary>, time: Seconds)
    ensures HasTime(a + b, time) <==> HasTime(a, time) || HasTime(b, time)
  {
    if a == [] {
      assert a + b == b;
    } else {
      assert (a + b)[1..] == a[1..] + b;
      HasTimeConcat(a[1..], b, time);
    }
  }

  lemma {:induction false} AfterTimes(boundaries: seq<Boundary>, now: Seconds, time: Seconds)
    ensures HasTime(After(boundaries, now), time) <==> time > now && HasTime(boundaries, time)
  {
    if boundaries != [] {
      AfterTimes(boundaries[1..], now, time);
    }
  }

  lemma {:induction false} EarliestIsLeast(boundaries: seq<Boundary>, time: Seconds)
    ensures Earliest(boundaries) == Some(time) ==> HasTime(boundaries, time)
    ensures HasTime(boundaries, time) ==> Earliest(boundaries).Some? && Earliest(boundaries).value <= time
  {
    if boundaries != [] {
      EarliestIsLeast(boundaries[1..], time);
    }
  }

  function BoundaryTimes(control: ControlRef): set<Seconds> {
    match control
    case DefaultRef(_) => {}
    case ScheduledRef(s) => {s.startTime, s.startTime + s.duration}
  }

  lemma {:induction false} FutureBoundaryTimes(s: seq<Annotated>, now: Seconds, time: Seconds)
    ensures HasTime(FutureBoundaries(Unannotated(s), now), time)
       <==> time > now && exists a :: a in s && time in BoundaryTimes(a.control)
  {
    if s != [] {
      FutureBoundaryTimes(s[1..], now, time);
      assert Unannotated(s)[1..] == Unannotated(s[1..]);
      HasTimeConcat(After(BoundariesOf(s[0].control), now), FutureBoundaries(Unannotated(s[1..]), now), time);
      AfterTimes(BoundariesOf(s[0].control), now, time);
      OwnBoundaryTimes(s[0].control, time);
      assert s == [s[0]] + s[1..];
    }
  }

  lemma OwnBoundaryTimes(control: ControlRef, time: Seconds)
    ensures HasTime(BoundariesOf(control), time) <==> time in BoundaryTimes(control)
  {
    if control.ScheduledRef? {
      var b := BoundariesOf(control);
      assert b[1..] == [b[1]] && b[1..][1..] == [];
      assert HasTime(b[1..], time) <==> b[1].time == time;
    }
  }

  /** The boundary times of a device's controls after now. */
  ghost function FutureTimes(m: ModelState, lfdi: Lfdi, now: Seconds): set<Seconds> {
    set a, t | a in Candidates(m, lfdi, now) && t in BoundaryTimes(a.control) && t > now :: t
  }

  /** The predicted time is the first boundary after now, and there is none when none is predicted. */
  lemma NextIsFirstBoundary(m: ModelState, lfdi: Lfdi, now: Seconds)
    ensures var next := CalcNext(m, lfdi, now).time;
            && (next.None? <==> FutureTimes(m, lfdi, now) == {})
            && (next.Some? ==> next.value in FutureTimes(m, lfdi, now) && forall t :: t in FutureTimes(m, lfdi, now)
                                                                                      ==> next.value <= t)
  {
    var s := Candidates(m, lfdi, now);
    var future := FutureBoundaries(AllControls(m, lfdi, now), now);
    forall t ensures HasTime(future, t) <==> t in FutureTimes(m, lfdi, now) {
      FutureBoundaryTimes(Sort(s), now, t);
      forall a ensures a in Sort(s) <==> a in s {
        SameMembers(s, a);
      }
    }
    forall t ensures t in FutureTimes(m, lfdi, now) ==> Earliest(future).Some? && Earliest(future).value <= t {
      EarliestIsLeast(future, t);
    }
    if Earliest(future).Some? {
      EarliestIsLeast(future, Earliest(future).value);
    }
  }

  // Time passing only drops the controls that end.

  function StillAhead(s: seq<Annotated>, now: Seconds): seq<Annotated> {
    if s == [] then []
    else if s[0].control.ScheduledRef? && s[0].control.scheduled.EndTime() <= now then StillAhead(s[1..], now)
    else [s[0]] + StillAhead(s[1..], now)
  }

  lemma {:induction false} StillAheadConcat(a: seq<Annotated>, b: seq<Annotated>, now: Seconds)
    ensures StillAhead(a + b, now) == StillAhead(a, now) + StillAhead(b, now)
  {
    if a == [] {
      assert a + b == b;
    } else {
      assert (a + b)[1..] == a[1..] + b;
      StillAheadConcat(a[1..], b, now);
    }
  }

  lemma {:induction false} ScheduledLater(primacy: nat, controls: seq<ScheduledControl>, now: Seconds, later: Seconds)
    requires now <= later
    ensures ScheduledAhead(primacy, controls, later) == StillAhead(ScheduledAhead(primacy, controls, now), later)
  {
    if controls != [] {
      ScheduledLater(primacy, controls[1..], now, later);
      var head := if IsAhead(controls[0], now) then [Annotated(primacy, ScheduledRef(controls[0]))] else [];
      StillAheadConcat(head, ScheduledAhead(primacy, controls[1..], now), later);
      if head != [] {
        assert head[1..] == [];
      }
    }
  }

  lemma {:induction false} CandidatesOfLater(m: ModelState, programs: seq<ProgramResource>, now: Seconds,
                                             later: Seconds)
    requires now <= later
    ensures CandidatesOf(m, programs, later) == StillAhead(CandidatesOf(m, programs, now), later)
  {
    if programs != [] {
      var ahead, default := ScheduledAhead(programs[0].primacy, StoredControls(m, programs[0]), now),
                            DefaultOf(m, programs[0]);
      CandidatesOfLater(m, programs[1..], now, later);
      ScheduledLater(programs[0].primacy, StoredControls(m, programs[0]), now, later);
      StillAheadConcat(ahead + default, CandidatesOf(m, programs[1..], now), later);
      StillAheadConcat(ahead, default, later);
      if default != [] {
        assert default[1..] == [];
      }
    }
  }

  lemma CandidatesLater(m: ModelState, lfdi: Lfdi, now: Seconds, later: Seconds)
    requires now <= later
    ensures Candidates(m, lfdi, later) == StillAhead(Candidates(m, lfdi, now), later)
  {
    CandidatesOfLater(m, ProgramsForDevice(m, lfdi), now, later);
  }

  lemma {:induction false} NothingEnds(s: seq<Annotated>, now: Seconds)
    requires forall a :: a in s && a.control.ScheduledRef? ==> a.control.scheduled.EndTime() > now
    ensures StillAhead(s, now) == s
  {
    if s != [] {
      assert s[0] in s;
      NothingEnds(s[1..], now);
    }
  }

  lemma {:induction false} SameActive(controls: seq<ControlRef>, now: Seconds, later: Seconds)
    requires forall c :: c in controls ==> IsActive(c, now) == IsActive(c, later)
    ensures ActiveControls(controls, now) == ActiveControls(controls, later)
  {
    if controls != [] {
      assert controls[0] in controls;
      SameActive(controls[1..], now, later);
    }
  }

  lemma {:induction false} CandidatesAreAhead(m: ModelState, programs: seq<ProgramResource>, now: Seconds)
    ensures forall a :: a in CandidatesOf(m, programs, now) && a.control.ScheduledRef?
                        ==> a.control.scheduled.EndTime() > now
  {
    if programs != [] {
      CandidatesAreAhead(m, programs[1..], now);
      ScheduledAreAhead(programs[0].primacy, StoredControls(m, programs[0]), now);
    }
  }

  lemma {:induction false} ScheduledAreAhead(primacy: nat, controls: seq<ScheduledControl>, now: Seconds)
    ensures forall a :: a in ScheduledAhead(primacy, controls, now)
                        ==> a.control.ScheduledRef? && a.control.scheduled.EndTime() > now
  {
    if controls != [] {
      ScheduledAreAhead(primacy, controls[1..], now);
    }
  }

  /** From now until just before the predicted time, or for ever if none is predicted. */
  predicate BeforeNext(next: Option<Seconds>, now: Seconds, t: Seconds) {
    now <= t && (next.None? || t < next.value)
  }

  /** The parameters do not change before the predicted time. */
  lemma ParametersHoldUntilNext(m: ModelState, lfdi: Lfdi, now: Seconds, t: Seconds)
    requires BeforeNext(CalcNext(m, lfdi, now).time, now, t)
    ensures AllControls(m, lfdi, t) == AllControls(m, lfdi, now)
    ensures CalcParameters(m, lfdi, t) == CalcParameters(m, lfdi, now)
  {
    var s := Candidates(m, lfdi, now);
    NextIsFirstBoundary(m, lfdi, now);
    CandidatesAreAhead(m, ProgramsForDevice(m, lfdi), now);
    forall a | a in s && a.control.ScheduledRef?
      ensures a.control.scheduled.EndTime() > t
      ensures IsActive(a.control, now) == IsActive(a.control, t)
    {
      assert a.control.scheduled.EndTime() in BoundaryTimes(a.control);
      assert a.control.scheduled.EndTime() in FutureTimes(m, lfdi, now);
      if a.control.scheduled.startTime > now {
        assert a.control.scheduled.startTime in BoundaryTimes(a.control);
        assert a.control.scheduled.startTime in FutureTimes(m, lfdi, now);
      }
    }
    CandidatesLater(m, lfdi, now, t);
    NothingEnds(s, t);
    var controls := AllControls(m, lfdi, now);
    forall c | c in controls
      ensures IsActive(c, now) == IsActive(c, t)
    {
      var i :| 0 <= i < |controls| && controls[i] == c;
      SameMembers(s, Sort(s)[i]);
    }
    SameActive(controls, now, t);
  }

  // Walking the schedule.

  lemma {:induction false} StillAheadMembers(s: seq<Annotated>, now: Seconds, a: Annotated)
    ensures a in StillAhead(s, now) <==> a in s && !(a.control.ScheduledRef? && a.control.scheduled.EndTime() <= now)
  {
    if s != [] {
      StillAheadMembers(s[1..], now, a);
      assert s == [s[0]] + s[1..];
    }
  }

  /** Later, the boundary times are those that still lie ahead. */
  lemma FutureTimesLater(m: ModelState, lfdi: Lfdi, now: Seconds, later: Seconds)
    requires now <= later
    ensures FutureTimes(m, lfdi, later) == set t | t in FutureTimes(m, lfdi, now) && t > later
  {
    CandidatesLater(m, lfdi, now, later);
    forall a
      ensures a in Candidates(m, lfdi, later)
         <==> a in Candidates(m, lfdi, now) && !(a.control.ScheduledRef? && a.control.scheduled.EndTime() <= later)
    {
      StillAheadMembers(Candidates(m, lfdi, now), later, a);
    }
    forall t | t in FutureTimes(m, lfdi, now) && t > later
      ensures t in FutureTimes(m, lfdi, later)
    {
      var a :| a in Candidates(m, lfdi, now) && t in BoundaryTimes(a.control);
      assert a in Candidates(m, lfdi, later);
    }
  }

  lemma FewerTimes(m: ModelState, lfdi: Lfdi, now: Seconds)
    requires CalcNext(m, lfdi, now).time.Some?
    ensures var next := CalcNext(m, lfdi, now).time.value;
            next > now && |FutureTimes(m, lfdi, next)| < |FutureTimes(m, lfdi, now)|
  {
    NextIsFirstBoundary(m, lfdi, now);
    var next := CalcNext(m, lfdi, now).time.value;
    FutureTimesLater(m, lfdi, now, next);
    assert FutureTimes(m, lfdi, next) <= FutureTimes(m, lfdi, now) - {next};
    SubsetSize(FutureTimes(m, lfdi, next), FutureTimes(m, lfdi, now) - {next});
  }

  /** The predictions met when the model stays as it is and every wake-up is on time. */
  ghost function Timeline(m: ModelState, lfdi: Lfdi, now: Seconds): seq<Prediction>
    decreases |FutureTimes(m, lfdi, now)|
  {
    var next := CalcNext(m, lfdi, now);
    if next.time.None? then [] else
    FewerTimes(m, lfdi, now);
    [next] + Timeline(m, lfdi, next.time.value)
  }

  function AllResponses(boundaries: seq<Boundary>): seq<Event> {
    if boundaries == [] then [] else boundaries[0].response + AllResponses(boundaries[1..])
  }

  function EventsOf(predictions: seq<Prediction>): seq<Event> {
    if predictions == [] then [] else predictions[0].events + EventsOf(predictions[1..])
  }

  ghost function ResponsesAhead(s: seq<Annotated>, now: Seconds): multiset<Event> {
    multiset(AllResponses(FutureBoundaries(Unannotated(s), now)))
  }

  lemma {:induction false} AllResponsesConcat(a: seq<Boundary>, b: seq<Boundary>)
    ensures AllResponses(a + b) == AllResponses(a) + AllResponses(b)
  {
    if a == [] {
      assert a + b == b;
    } else {
      assert (a + b)[1..] == a[1..] + b;
      AllResponsesConcat(a[1..], b);
    }
  }

  lemma OwedByFirst(s: seq<Annotated>, now: Seconds)
    requires s != []
    ensures ResponsesAhead(s, now)
         == multiset(AllResponses(After(BoundariesOf(s[0].control), now))) + ResponsesAhead(s[1..], now)
  {
    assert Unannotated(s)[1..] == Unannotated(s[1..]);
    AllResponsesConcat(After(BoundariesOf(s[0].control), now), FutureBoundaries(Unannotated(s[1..]), now));
  }

  lemma {:induction false} InsertOwes(x: Annotated, sorted: seq<Annotated>, now: Seconds)
    ensures ResponsesAhead(Insert(x, sorted), now)
         == multiset(AllResponses(After(BoundariesOf(x.control), now))) + ResponsesAhead(sorted, now)
  {
    OwedByFirst(Insert(x, sorted), now);
    if sorted != [] && Compare(x, sorted[0]) == Greater {
      assert Insert(x, sorted)[1..] == Insert(x, sorted[1..]);
      InsertOwes(x, sorted[1..], now);
      OwedByFirst(sorted, now);
    } else {
      assert Insert(x, sorted)[1..] == sorted;
    }
  }

  lemma {:induction false} SortOwes(s: seq<Annotated>, now: Seconds)
    ensures ResponsesAhead(Sort(s), now) == ResponsesAhead(s, now)
  {
    if s != [] {
      SortOwes(s[1..], now);
      InsertOwes(s[0], Sort(s[1..]), now);
      OwedByFirst(s, now);
    }
  }

  lemma {:induction false} SplitAt(boundaries: seq<Boundary>, time: Seconds)
    requires forall t :: HasTime(boundaries, t) ==> time <= t
    ensures multiset(AllResponses(boundaries))
         == multiset(ResponsesAt(boundaries, time)) + multiset(AllResponses(After(boundaries, time)))
  {
    if boundaries != [] {
      forall t | HasTime(boundaries[1..], t) ensures time <= t {
        assert HasTime(boundaries, t);
      }
      SplitAt(boundaries[1..], time);
      assert HasTime(boundaries, boundaries[0].time);
      assert After(boundaries, time)
          == (if boundaries[0].time > time then [boundaries[0]] else []) + After(boundaries[1..], time);
    }
  }

  lemma {:induction false} AfterAfter(boundaries: seq<Boundary>, now: Seconds, later: Seconds)
    requires now <= later
    ensures After(After(boundaries, now), later) == After(boundaries, later)
  {
    if boundaries != [] {
      AfterAfter(boundaries[1..], now, later);
    }
  }

  lemma {:induction false} AfterConcat(a: seq<Boundary>, b: seq<Boundary>, now: Seconds)
    ensures After(a + b, now) == After(a, now) + After(b, now)
  {
    if a == [] {
      assert a + b == b;
    } else {
      assert (a + b)[1..] == a[1..] + b;
      AfterConcat(a[1..], b, now);
    }
  }

  lemma {:induction false} FutureAfter(controls: seq<ControlRef>, now: Seconds, later: Seconds)
    requires now <= later
    ensures After(FutureBoundaries(controls, now), later) == FutureBoundaries(controls, later)
  {
    if controls != [] {
      FutureAfter(controls[1..], now, later);
      AfterConcat(After(BoundariesOf(controls[0]), now), FutureBoundaries(controls[1..], now), later);
      AfterAfter(BoundariesOf(controls[0]), now, later);
    }
  }

  /** Dropping the controls that have ended drops no boundary ahead. */
  lemma {:induction false} EndedOweNothing(s: seq<Annotated>, now: Seconds)
    ensures FutureBoundaries(Unannotated(StillAhead(s, now)), now) == FutureBoundaries(Unannotated(s), now)
  {
    if s != [] {
      EndedOweNothing(s[1..], now);
      assert Unannotated(s)[1..] == Unannotated(s[1..]);
      if s[0].control.ScheduledRef? && s[0].control.scheduled.EndTime() <= now {
        var b := BoundariesOf(s[0].control);
        assert b[1..] == [b[1]] && b[1..][1..] == [];
        assert b[0].time <= b[1].time <= now;
        assert After(b[1..], now) == [];
        assert After(b, now) == [];
      } else {
        var t := StillAhead(s, now);
        assert t[1..] == StillAhead(s[1..], now);
        assert Unannotated(t)[1..] == Unannotated(t[1..]);
      }
    }
  }

  lemma OneWakeUp(m: ModelState, lfdi: Lfdi, now: Seconds)
    requires CalcNext(m, lfdi, now).time.Some?
    ensures var next := CalcNext(m, lfdi, now);
            ResponsesAhead(Candidates(m, lfdi, now), now)
            == multiset(next.events) + ResponsesAhead(Candidates(m, lfdi, next.time.value), next.time.value)
  {
    var s := Candidates(m, lfdi, now);
    var next := CalcNext(m, lfdi, now);
    var t := next.time.value;
    var future := FutureBoundaries(AllControls(m, lfdi, now), now);
    forall u | HasTime(future, u) ensures t <= u {
      EarliestIsLeast(future, u);
    }
    SplitAt(future, t);
    FewerTimes(m, lfdi, now);
    FutureAfter(AllControls(m, lfdi, now), now, t);
    SortOwes(s, now);
    SortOwes(s, t);
    CandidatesLater(m, lfdi, now, t);
    EndedOweNothing(s, t);
  }

  ghost predicate Increasing(predictions: seq<Prediction>, from: Seconds) {
    && (forall i :: 0 <= i < |predictions| ==> predictions[i].time.Some? && predictions[i].time.value > from)
    && (forall i, j :: 0 <= i < j < |predictions| ==> predictions[i].time.value < predictions[j].time.value)
  }

  ghost function TimesOf(predictions: seq<Prediction>): set<Seconds> {
    set i | 0 <= i < |predictions| && predictions[i].time.Some? :: predictions[i].time.value
  }

  lemma FirstThenRest(m: ModelState, lfdi: Lfdi, now: Seconds)
    requires CalcNext(m, lfdi, now).time.Some?
    ensures var next := CalcNext(m, lfdi, now).time.value;
            FutureTimes(m, lfdi, now) == {next} + FutureTimes(m, lfdi, next)
  {
    var next := CalcNext(m, lfdi, now).time.value;
    NextIsFirstBoundary(m, lfdi, now);
    FewerTimes(m, lfdi, now);
    FutureTimesLater(m, lfdi, now, next);
    LeastSplitsOff(FutureTimes(m, lfdi, now), FutureTimes(m, lfdi, next), next);
  }

  lemma LeastSplitsOff(times: set<Seconds>, later: set<Seconds>, least: Seconds)
    requires least in times && forall t :: t in times ==> least <= t
    requires later == set t | t in times && t > least
    ensures times == {least} + later
  {
  }

  lemma {:induction false} TimelineTimes(m: ModelState, lfdi: Lfdi, now: Seconds)
    ensures Increasing(Timeline(m, lfdi, now), now)
    ensures TimesOf(Timeline(m, lfdi, now)) == FutureTimes(m, lfdi, now)
    decreases |FutureTimes(m, lfdi, now)|
  {
    var next := CalcNext(m, lfdi, now);
    if next.time.None? {
      NextIsFirstBoundary(m, lfdi, now);
    } else {
      FewerTimes(m, lfdi, now);
      TimelineTimes(m, lfdi, next.time.value);
      FirstThenRest(m, lfdi, now);
      TimesOfCons(next, Timeline(m, lfdi, next.time.value));
      IncreasingCons(next, Timeline(m, lfdi, next.time.value), now);
    }
  }

  lemma {:induction false} TimelineResponses(m: ModelState, lfdi: Lfdi, now: Seconds)
    ensures multiset(EventsOf(Timeline(m, lfdi, now))) == ResponsesAhead(Candidates(m, lfdi, now), now)
    decreases |FutureTimes(m, lfdi, now)|
  {
    var next := CalcNext(m, lfdi, now);
    if next.time.None? {
      NothingOwed(m, lfdi, now);
    } else {
      FewerTimes(m, lfdi, now);
      TimelineResponses(m, lfdi, next.time.value);
      OneWakeUp(m, lfdi, now);
      var rest := Timeline(m, lfdi, next.time.value);
      assert ([next] + rest)[1..] == rest;
    }
  }

  /** What one control asks to be told after now: its start and its end. */
  function OwedBy(control: ControlRef, now: Seconds): seq<Event> {
    match control
    case DefaultRef(_) => []
    case ScheduledRef(s) =>
      if !s.control.AsksToReport() then [] else
      var report := status => DERControlStatusChanged(s.control.mrid, status, s.control.replyTo.value);
      (if s.startTime > now then [report(EventStarted)] else [])
      + (if s.startTime + s.duration > now then [report(EventCompleted)] else [])
  }

  /** Every start and completion that the controls ask to be told of after now. */
  function Owed(s: seq<Annotated>, now: Seconds): multiset<Event> {
    if s == [] then multiset{} else multiset(OwedBy(s[0].control, now)) + Owed(s[1..], now)
  }

  lemma OwedByOne(control: ControlRef, now: Seconds)
    ensures AllResponses(After(BoundariesOf(control), now)) == OwedBy(control, now)
  {
    if control.ScheduledRef? {
      var b := BoundariesOf(control);
      assert b == [b[0]] + [b[1]] && b[1..] == [b[1]] && b[1..][1..] == [];
      AfterConcat([b[0]], [b[1]], now);
      AllResponsesConcat(After([b[0]], now), After([b[1]], now));
      OneAhead(b[0], now);
      OneAhead(b[1], now);
    }
  }

  lemma OneAhead(b: Boundary, now: Seconds)
    ensures AllResponses(After([b], now)) == if b.time > now then b.response else []
  {
    assert [b][1..] == [] && After([], now) == [] && AllResponses([]) == [];
    assert After([b], now) == if b.time > now then [b] else [];
    assert b.response + [] == b.response;
  }

  lemma {:induction false} OwedIsAhead(s: seq<Annotated>, now: Seconds)
    ensures ResponsesAhead(s, now) == Owed(s, now)
  {
    if s != [] {
      OwedIsAhead(s[1..], now);
      OwedByFirst(s, now);
      OwedByOne(s[0].control, now);
    }
  }

  /**
   Walking from wake-up to wake-up ends, visits every boundary after now exactly once in increasing
   order, and sends exactly the start and completion responses owed at the outset.
   */
  lemma TimelineEnumerates(m: ModelState, lfdi: Lfdi, now: Seconds)
    ensures var line := Timeline(m, lfdi, now);
            && Increasing(line, now)
            && TimesOf(line) == FutureTimes(m, lfdi, now)
            && multiset(EventsOf(line)) == Owed(Candidates(m, lfdi, now), now)
  {
    TimelineTimes(m, lfdi, now);
    TimelineResponses(m, lfdi, now);
    OwedIsAhead(Candidates(m, lfdi, now), now);
  }

  lemma IncreasingCons(first: Prediction, rest: seq<Prediction>, from: Seconds)
    requires first.time.Some? && first.time.value > from && Increasing(rest, first.time.value)
    ensures Increasing([first] + rest, from)
  {
  }

  lemma TimesOfCons(first: Prediction, rest: seq<Prediction>)
    requires first.time.Some?
    ensures TimesOf([first] + rest) == {first.time.value} + TimesOf(rest)
  {
    var s := [first] + rest;
    forall t | t in TimesOf(rest) ensures t in TimesOf(s) {
      var i :| 0 <= i < |rest| && rest[i].time == Some(t);
      assert s[i + 1].time == Some(t);
    }
    assert s[0].time == first.time;
  }

  lemma NothingOwed(m: ModelState, lfdi: Lfdi, now: Seconds)
    requires CalcNext(m, lfdi, now).time.None?
    ensures ResponsesAhead(Candidates(m, lfdi, now), now) == multiset{}
  {
    SomethingIsNext(m, lfdi, now);
    SortOwes(Candidates(m, lfdi, now), now);
  }

  lemma SomethingIsNext(m: ModelState, lfdi: Lfdi, now: Seconds)
    ensures CalcNext(m, lfdi, now).time.None? ==> FutureBoundaries(AllControls(m, lfdi, now), now) == []
  {
    var future := FutureBoundaries(AllControls(m, lfdi, now), now);
    if future != [] {
      EarliestIsLeast(future, future[0].time);
    }
  }
}
