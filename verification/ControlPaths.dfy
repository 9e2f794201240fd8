/**
 How often a control is listed for a device, and so how often its start and completion are reported:
 once for each path from the device through an FSA and a program to a mention of it.
 */
module ControlPaths {
  import opened Wrappers
  import opened ResourceTypes
  import opened ResourceGraph
  import opened ModelUpdates
  import opened ControlHistory
  import opened ControlPriority
  import opened Schedule
  import opened SchedulerSafety

  function Occurrences(ids: seq<Mrid>, id: Mrid): nat {
    if ids == [] then 0 else (if ids[0] == id then 1 else 0) + Occurrences(ids[1..], id)
  }

  function MentionsBelow(m: ModelState, program: ProgramResource, id: Mrid): nat {
    match program.controlListLink
    case None => 0
    case Some(href) => if href in m.controlLists then Occurrences(m.controlLists[href].items, id) else 0
  }

  /** The number of paths by which some programs reach a control. */
  function PathsFrom(m: ModelState, programs: seq<ProgramResource>, id: Mrid): nat {
    if programs == [] then 0 else MentionsBelow(m, programs[0], id) + PathsFrom(m, programs[1..], id)
  }

  function Paths(m: ModelState, lfdi: Lfdi, id: Mrid): nat {
    PathsFrom(m, ProgramsForDevice(m, lfdi), id)
  }

  // Counting through the collection and the sort.

  function CountIn(s: seq<Annotated>, id: Mrid): nat {
    if s == [] then 0 else
    (if s[0].control.ScheduledRef? && s[0].control.scheduled.control.mrid == id then 1 else 0) + CountIn(s[1..], id)
  }

  lemma {:induction false} CountInConcat(a: seq<Annotated>, b: seq<Annotated>, id: Mrid)
    ensures CountIn(a + b, id) == CountIn(a, id) + CountIn(b, id)
  {
    if a == [] {
      assert a + b == b;
    } else {
      assert (a + b)[1..] == a[1..] + b;
      CountInConcat(a[1..], b, id);
    }
  }

  lemma {:induction false} CountListedIsCountIn(s: seq<Annotated>, id: Mrid)
    ensures CountListed(Unannotated(s), id) == CountIn(s, id)
  {
    if s != [] {
      assert Unannotated(s)[1..] == Unannotated(s[1..]);
      CountListedIsCountIn(s[1..], id);
    }
  }

  lemma {:induction false} InsertCounts(x: Annotated, sorted: seq<Annotated>, id: Mrid)
    ensures CountIn(Insert(x, sorted), id) == CountIn([x], id) + CountIn(sorted, id)
  {
    if sorted == [] || Compare(x, sorted[0]) != Greater {
      CountInConcat([x], sorted, id);
      assert sorted == [] ==> [x] + sorted == [x];
    } else {
      InsertCounts(x, sorted[1..], id);
      CountInConcat([sorted[0]], Insert(x, sorted[1..]), id);
      CountInConcat([sorted[0]], sorted[1..], id);
      assert [sorted[0]] + sorted[1..] == sorted;
    }
  }

  lemma {:induction false} SortCounts(s: seq<Annotated>, id: Mrid)
    ensures CountIn(Sort(s), id) == CountIn(s, id)
  {
    if s != [] {
      SortCounts(s[1..], id);
      InsertCounts(s[0], Sort(s[1..]), id);
      CountInConcat([s[0]], s[1..], id);
      assert [s[0]] + s[1..] == s;
    }
  }

  /** Whether a stored control is listed at all. */
  predicate IsListed(m: ModelState, id: Mrid, now: Seconds) {
    id in m.controls && IsAhead(m.controls[id], now)
  }

  lemma {:induction false} LookupCounts(m: ModelState, primacy: nat, ids: seq<Mrid>, now: Seconds, id: Mrid)
    requires KeysMatch(m)
    ensures CountIn(ScheduledAhead(primacy, Lookup(ids, m.controls), now), id)
         == if IsListed(m, id, now) then Occurrences(ids, id) else 0
  {
    if ids != [] {
      LookupCounts(m, primacy, ids[1..], now, id);
      if ids[0] in m.controls {
        var found := [m.controls[ids[0]]] + Lookup(ids[1..], m.controls);
        var head := if IsAhead(found[0], now) then [Annotated(primacy, ScheduledRef(found[0]))] else [];
        assert found[1..] == Lookup(ids[1..], m.controls);
        CountInConcat(head, ScheduledAhead(primacy, found[1..], now), id);
      }
    }
  }

  lemma {:induction false} CandidatesCount(m: ModelState, programs: seq<ProgramResource>, now: Seconds, id: Mrid)
    requires KeysMatch(m)
    ensures CountIn(CandidatesOf(m, programs, now), id) == if IsListed(m, id, now) then PathsFrom(m, programs, id)
                                                           else 0
  {
    if programs != [] {
      var program := programs[0];
      var ahead, default := ScheduledAhead(program.primacy, StoredControls(m, program), now), DefaultOf(m, program);
      CandidatesCount(m, programs[1..], now, id);
      CountInConcat(ahead + default, CandidatesOf(m, programs[1..], now), id);
      CountInConcat(ahead, default, id);
      ProgramCounts(m, program, now, id);
    }
  }

  lemma ProgramCounts(m: ModelState, program: ProgramResource, now: Seconds, id: Mrid)
    requires KeysMatch(m)
    ensures CountIn(ScheduledAhead(program.primacy, StoredControls(m, program), now), id)
         == if IsListed(m, id, now) then MentionsBelow(m, program, id) else 0
    ensures CountIn(DefaultOf(m, program), id) == 0
  {
    if program.controlListLink.Some? && program.controlListLink.value in m.controlLists {
      LookupCounts(m, program.primacy, m.controlLists[program.controlListLink.value].items, now, id);
    }
  }

  /** A control that is ahead is listed once for each path to it, and otherwise not at all. */
  lemma ListedPerPath(m: ModelState, lfdi: Lfdi, now: Seconds, id: Mrid)
    requires KeysMatch(m)
    ensures CountListed(AllControls(m, lfdi, now), id) == if IsListed(m, id, now) then Paths(m, lfdi, id) else 0
  {
    CountListedIsCountIn(Sort(Candidates(m, lfdi, now)), id);
    SortCounts(Candidates(m, lfdi, now), id);
    CandidatesCount(m, ProgramsForDevice(m, lfdi), now, id);
  }

  /** A control is listed at most once at all times exactly if at most one path leads to it, or it is never listed. */
  lemma ListedOnceExactly(m: ModelState, lfdi: Lfdi, id: Mrid)
    requires KeysMatch(m)
    ensures ListedOnce(m, lfdi, id) <==>
            || Paths(m, lfdi, id) <= 1
            || id !in m.controls
            || (m.controls[id].control.currentStatus != Scheduled && m.controls[id].control.currentStatus != Active)
  {
    forall now ensures CountListed(AllControls(m, lfdi, now), id) == if IsListed(m, id, now) then Paths(m, lfdi, id)
                                                                     else 0 {
      ListedPerPath(m, lfdi, now, id);
    }
    if id in m.controls
       && (m.controls[id].control.currentStatus == Scheduled || m.controls[id].control.currentStatus == Active) {
      var early := m.controls[id].EndTime() - 1;
      assert IsListed(m, id, early);
      assert ListedOnce(m, lfdi, id) ==> CountListed(AllControls(m, lfdi, early), id) <= 1;
    }
  }

  // One report for each path.

  ghost predicate AllAre(controls: seq<ControlRef>, id: Mrid, stored: ScheduledControl) {
    forall c :: c in controls && c.ScheduledRef? && c.scheduled.control.mrid == id ==> c.scheduled == stored
  }

  lemma {:induction false} EachListingReports(
    controls: seq<ControlRef>, now: Seconds, id: Mrid, stored: ScheduledControl, status: ResponseStatus)
    requires status == EventStarted || status == EventCompleted
    requires AllAre(controls, id, stored) && stored.control.mrid == id
    requires TimeOf(stored, status) > now && stored.control.AsksToReport()
    ensures CountResponses(ResponsesAt(FutureBoundaries(controls, now), TimeOf(stored, status)), id, status)
         == CountListed(controls, id)
  {
    if controls != [] {
      var time := TimeOf(stored, status);
      assert controls == [controls[0]] + controls[1..];
      EachListingReports(controls[1..], now, id, stored, status);
      var own := After(BoundariesOf(controls[0]), now);
      ResponsesAtConcat(own, FutureBoundaries(controls[1..], now), time);
      CountConcat(ResponsesAt(own, time), ResponsesAt(FutureBoundaries(controls[1..], now), time), id, status);
      OwnResponses(controls[0], now, time);
      OwnReport(controls[0], id, stored, status);
    }
  }

  lemma OwnReport(control: ControlRef, id: Mrid, stored: ScheduledControl, status: ResponseStatus)
    requires status == EventStarted || status == EventCompleted
    requires stored.control.mrid == id && stored.control.AsksToReport()
    requires control.ScheduledRef? && control.scheduled.control.mrid == id ==> control.scheduled == stored
    ensures CountResponses(OwnResponsesAt(control, TimeOf(stored, status)), id, status)
         == if control.ScheduledRef? && control.scheduled.control.mrid == id then 1 else 0
  {
    if control.ScheduledRef? {
      var s, time := control.scheduled, TimeOf(stored, status);
      var started := if s.startTime == time then ResponseIfRequired(s.control, true, EventStarted) else [];
      var completed := if s.EndTime() == time then ResponseIfRequired(s.control, true, EventCompleted) else [];
      CountConcat(started, completed, id, status);
    }
  }

  lemma ListedAreStored(m: ModelState, lfdi: Lfdi, now: Seconds, id: Mrid)
    requires KeysMatch(m) && id in m.controls
    ensures AllAre(AllControls(m, lfdi, now), id, m.controls[id])
  {
    var s := Candidates(m, lfdi, now);
    forall c | c in AllControls(m, lfdi, now) && c.ScheduledRef? && c.scheduled.control.mrid == id
      ensures c.scheduled == m.controls[id]
    {
      var i :| 0 <= i < |Sort(s)| && Sort(s)[i].control == c;
      SameMembers(s, Sort(s)[i]);
      CandidatesAreStored(m, ProgramsForDevice(m, lfdi), now, Sort(s)[i]);
    }
  }

  /** When a control's start (completion) is next, it is predicted once for every path to the control. */
  lemma EachPathReports(m: ModelState, lfdi: Lfdi, now: Seconds, id: Mrid, status: ResponseStatus)
    requires status == EventStarted || status == EventCompleted
    requires KeysMatch(m) && IsListed(m, id, now) && m.controls[id].control.AsksToReport()
    requires CalcNext(m, lfdi, now).time == Some(TimeOf(m.controls[id], status)) && TimeOf(m.controls[id], status) > now
    ensures CountResponses(CalcNext(m, lfdi, now).events, id, status) == Paths(m, lfdi, id)
  {
    ListedAreStored(m, lfdi, now, id);
    EachListingReports(AllControls(m, lfdi, now), now, id, m.controls[id], status);
    ListedPerPath(m, lfdi, now, id);
  }
}
