/** Collecting the controls that apply to a device and putting them in order of priority. */
module ControlPriority {
  import opened Wrappers
  import opened ResourceTypes
  import opened ResourceGraph

  datatype ControlRef = ScheduledRef(scheduled: ScheduledControl) | DefaultRef(default: DefaultControlResource)

  /** A control with the primacy of its program; a lower primacy has priority. */
  datatype Annotated = Annotated(primacy: nat, control: ControlRef)

  // Collecting.

  function ProgramsOf(m: ModelState, fsas: seq<FsaResource>): seq<ProgramResource> {
    if fsas == [] then [] else
    (match fsas[0].programListLink
     case None => []
     case Some(href) => ListItems(Get(m.programLists, href), m.programs))
    + ProgramsOf(m, fsas[1..])
  }

  /** The programs found by following EndDevice, FSA list, FSA and program list. */
  function ProgramsForDevice(m: ModelState, lfdi: Lfdi): seq<ProgramResource> {
    if lfdi !in m.endDevices then [] else
    match m.endDevices[lfdi].fsaListLink
    case None => []
    case Some(href) => ProgramsOf(m, ListItems(Get(m.fsaLists, href), m.fsas))
  }

  /** Neither cancelled nor superseded, and not yet over. */
  predicate IsAhead(control: ScheduledControl, now: Seconds) {
    && (control.control.currentStatus == Scheduled || control.control.currentStatus == Active)
    && control.EndTime() > now
  }

  function ScheduledAhead(primacy: nat, controls: seq<ScheduledControl>, now: Seconds): seq<Annotated> {
    if controls == [] then [] else
    (if IsAhead(controls[0], now) then [Annotated(primacy, ScheduledRef(controls[0]))] else [])
    + ScheduledAhead(primacy, controls[1..], now)
  }

  function DefaultOf(m: ModelState, program: ProgramResource): seq<Annotated> {
    match program.defaultControlLink
    case None => []
    case Some(href) =>
      if href in m.defaultControls then [Annotated(program.primacy, DefaultRef(m.defaultControls[href]))] else []
  }

  function StoredControls(m: ModelState, program: ProgramResource): seq<ScheduledControl> {
    match program.controlListLink
    case None => []
    case Some(href) => ListItems(Get(m.controlLists, href), m.controls)
  }

  function CandidatesOf(m: ModelState, programs: seq<ProgramResource>, now: Seconds): seq<Annotated> {
    if programs == [] then [] else
    ScheduledAhead(programs[0].primacy, StoredControls(m, programs[0]), now)
    + DefaultOf(m, programs[0])
    + CandidatesOf(m, programs[1..], now)
  }

  function Candidates(m: ModelState, lfdi: Lfdi, now: Seconds): seq<Annotated> {
    CandidatesOf(m, ProgramsForDevice(m, lfdi), now)
  }

  // Ordering.

  datatype Ordering = Less | Equal | Greater {

    function Reverse(): Ordering {
      match this
      case Less => Greater
      case Equal => Equal
      case Greater => Less
    }
  }

  function CompareInts(a: int, b: int): Ordering {
    if a < b then Less else if a == b then Equal else Greater
  }

  /** By primacy, then scheduled before default, then newest first. */
  function Compare(a: Annotated, b: Annotated): Ordering {
    match CompareInts(a.primacy, b.primacy)
    case Less => Less
    case Greater => Greater
    case Equal =>
      match (a.control, b.control)
      case (DefaultRef(_), _) => Greater
      case (ScheduledRef(_), DefaultRef(_)) => Less
      case (ScheduledRef(x), ScheduledRef(y)) => CompareInts(x.control.creationTime, y.control.creationTime).Reverse()
  }

  /** Stable insertion: before the first element that does not compare less. */
  function Insert(x: Annotated, sorted: seq<Annotated>): seq<Annotated> {
    if sorted == [] then [x]
    else if Compare(x, sorted[0]) != Greater then [x] + sorted
    else [sorted[0]] + Insert(x, sorted[1..])
  }

  function Sort(s: seq<Annotated>): seq<Annotated> {
    if s == [] then [] else Insert(s[0], Sort(s[1..]))
  }

  function Unannotated(s: seq<Annotated>): (r: seq<ControlRef>)
    ensures |r| == |s|
    ensures forall i :: 0 <= i < |s| ==> r[i] == s[i].control
  {
    seq(|s|, i requires 0 <= i < |s| => s[i].control)
  }

  /** All controls that apply to the device now or later, in descending priority. */
  function AllControls(m: ModelState, lfdi: Lfdi, now: Seconds): seq<ControlRef> {
    Unannotated(Sort(Candidates(m, lfdi, now)))
  }

  // When the comparator is an order.

  predicate BothDefaults(a: Annotated, b: Annotated) {
    a.control.DefaultRef? && b.control.DefaultRef? && a.primacy == b.primacy
  }

  /** No primacy has two defaults in the list. */
  predicate OneDefaultPerPrimacy(s: seq<Annotated>) {
    forall i, j :: 0 <= i < j < |s| ==> !BothDefaults(s[i], s[j])
  }

  /** What a sort requires of a comparator, on the elements at different positions of a list. */
  ghost predicate IsOrderOn(s: seq<Annotated>) {
    && (forall i, j :: 0 <= i < |s| && 0 <= j < |s| && i != j ==> Compare(s[i], s[j]) == Compare(s[j], s[i]).Reverse())
    && (forall i, j, k :: && 0 <= i < |s| && 0 <= j < |s| && 0 <= k < |s| && i != j && j != k && i != k
                          && Compare(s[i], s[j]) != Greater && Compare(s[j], s[k]) != Greater
                          ==> Compare(s[i], s[k]) != Greater)
  }

  /** The comparator is a consistent order exactly when no primacy has two defaults. */
  lemma ComparatorIsOrder(s: seq<Annotated>)
    ensures IsOrderOn(s) <==> OneDefaultPerPrimacy(s)
  {
    if IsOrderOn(s) {
      forall i, j | 0 <= i < j < |s| ensures !BothDefaults(s[i], s[j]) {
        assert Compare(s[i], s[j]) == Compare(s[j], s[i]).Reverse();
      }
    }
    if OneDefaultPerPrimacy(s) {
      forall i, j | 0 <= i < |s| && 0 <= j < |s| && i != j
        ensures Compare(s[i], s[j]) == Compare(s[j], s[i]).Reverse()
      {
        assert !BothDefaults(s[i], s[j]) by {
          if i < j { assert !BothDefaults(s[i], s[j]); } else { assert !BothDefaults(s[j], s[i]); }
        }
      }
    }
  }

  // Priority, independently of the sort.

  /** A strict order: lower primacy, then scheduled before default, then newer. */
  predicate Outranks(a: Annotated, b: Annotated) {
    || a.primacy < b.primacy
    || (a.primacy == b.primacy && a.control.ScheduledRef?
        && (b.control.DefaultRef?
            || a.control.scheduled.control.creationTime > b.control.scheduled.control.creationTime))
  }

  lemma OutranksIsCompare(a: Annotated, b: Annotated)
    requires !BothDefaults(a, b)
    ensures Compare(a, b) == Greater <==> Outranks(b, a)
    ensures Compare(a, b) == Less <==> Outranks(a, b)
  {
  }

  ghost predicate IsSorted(s: seq<Annotated>) {
    forall i, j :: 0 <= i < j < |s| ==> !Outranks(s[j], s[i])
  }

  lemma {:induction false} InsertElements(x: Annotated, sorted: seq<Annotated>)
    ensures multiset(Insert(x, sorted)) == multiset{x} + multiset(sorted)
  {
    if sorted != [] && Compare(x, sorted[0]) == Greater {
      InsertElements(x, sorted[1..]);
      assert sorted == [sorted[0]] + sorted[1..];
    }
  }

  /** Sorting loses and invents nothing. */
  lemma {:induction false} SortElements(s: seq<Annotated>)
    ensures multiset(Sort(s)) == multiset(s)
  {
    if s != [] {
      SortElements(s[1..]);
      InsertElements(s[0], Sort(s[1..]));
      assert s == [s[0]] + s[1..];
    }
  }

  lemma SameMembers(s: seq<Annotated>, x: Annotated)
    ensures x in Sort(s) <==> x in s
  {
    SortElements(s);
    assert x in Sort(s) <==> x in multiset(Sort(s));
    assert x in s <==> x in multiset(s);
  }

  ghost predicate NoTwin(x: Annotated, s: seq<Annotated>) {
    forall i :: 0 <= i < |s| ==> !BothDefaults(x, s[i])
  }

  lemma {:induction false} InsertSorted(x: Annotated, sorted: seq<Annotated>)
    requires IsSorted(sorted) && NoTwin(x, sorted)
    ensures IsSorted(Insert(x, sorted))
  {
    if sorted != [] {
      OutranksIsCompare(x, sorted[0]);
      if Compare(x, sorted[0]) == Greater {
        var rest := Insert(x, sorted[1..]);
        InsertSorted(x, sorted[1..]);
        InsertElements(x, sorted[1..]);
        forall j | 0 <= j < |rest| ensures !Outranks(rest[j], sorted[0]) {
          assert rest[j] in multiset(rest);
          if rest[j] != x {
            assert rest[j] in sorted[1..];
          }
        }
      }
    }
  }

  lemma {:induction false} SortSorted(s: seq<Annotated>)
    requires OneDefaultPerPrimacy(s)
    ensures IsSorted(Sort(s))
  {
    if s != [] {
      SortSorted(s[1..]);
      NoTwinAfterSort(s);
      InsertSorted(s[0], Sort(s[1..]));
    }
  }

  lemma NoTwinAfterSort(s: seq<Annotated>)
    requires s != [] && OneDefaultPerPrimacy(s)
    ensures NoTwin(s[0], Sort(s[1..]))
  {
    var t := Sort(s[1..]);
    forall i | 0 <= i < |t| ensures !BothDefaults(s[0], t[i]) {
      SameMembers(s[1..], t[i]);
      var j :| 0 <= j < |s| - 1 && s[1..][j] == t[i];
      assert !BothDefaults(s[0], s[j + 1]);
    }
  }

  // The first of a kind.

  function FirstWith(s: seq<Annotated>, p: Annotated -> bool): Option<Annotated> {
    if s == [] then None else if p(s[0]) then Some(s[0]) else FirstWith(s[1..], p)
  }

  /** Position i holds the element of the kind that nothing else of the kind outranks, earliest in the list on a tie. */
  ghost predicate IsForemost(s: seq<Annotated>, p: Annotated -> bool, i: nat) {
    && i < |s| && p(s[i])
    && forall j :: 0 <= j < |s| && j != i && p(s[j]) ==> Outranks(s[i], s[j]) || (!Outranks(s[j], s[i]) && i < j)
  }

  lemma {:induction false} FirstAfterInsert(x: Annotated, sorted: seq<Annotated>, p: Annotated -> bool)
    requires IsSorted(sorted) && NoTwin(x, sorted)
    ensures var f := FirstWith(sorted, p);
            FirstWith(Insert(x, sorted), p) == if p(x) && (f.None? || !Outranks(f.value, x)) then Some(x) else f
  {
    if sorted != [] {
      OutranksIsCompare(x, sorted[0]);
      if Compare(x, sorted[0]) == Greater {
        FirstAfterInsert(x, sorted[1..], p);
      } else {
        FirstIsElement(sorted, p);
      }
    }
  }

  lemma {:induction false} FirstIsElement(s: seq<Annotated>, p: Annotated -> bool)
    ensures FirstWith(s, p).Some? <==> exists i :: 0 <= i < |s| && p(s[i])
    ensures FirstWith(s, p).Some? ==> FirstWith(s, p).value in s && p(FirstWith(s, p).value)
  {
    if s != [] && !p(s[0]) {
      FirstIsElement(s[1..], p);
    }
  }

  /** The first of a kind after sorting is the foremost of the kind before sorting. */
  lemma {:induction false} FirstOfSortedIsForemost(s: seq<Annotated>, p: Annotated -> bool) returns (i: nat)
    requires OneDefaultPerPrimacy(s)
    ensures FirstWith(Sort(s), p).Some? <==> exists j :: 0 <= j < |s| && p(s[j])
    ensures FirstWith(Sort(s), p).Some? ==> IsForemost(s, p, i) && FirstWith(Sort(s), p) == Some(s[i])
  {
    i := 0;
    if s != [] {
      var rest := s[1..];
      var k := FirstOfSortedIsForemost(rest, p);
      SortSorted(rest);
      NoTwinAfterSort(s);
      FirstAfterInsert(s[0], Sort(rest), p);
      var f := FirstWith(Sort(rest), p);
      if p(s[0]) && (f.None? || !Outranks(f.value, s[0])) {
        i := 0;
        forall j | 0 < j < |s| && p(s[j]) ensures Outranks(s[0], s[j]) || !Outranks(s[j], s[0]) {
          assert s[j] == rest[j - 1];
        }
        HeadIsForemost(s, p, k);
      } else if f.Some? {
        i := k + 1;
        ShiftForemost(s, p, k);
      }
    }
  }

  lemma HeadIsForemost(s: seq<Annotated>, p: Annotated -> bool, k: nat)
    requires s != [] && p(s[0])
    requires (forall j :: 0 <= j < |s| - 1 ==> !p(s[1..][j]))
             || (IsForemost(s[1..], p, k) && !Outranks(s[1..][k], s[0]))
    ensures IsForemost(s, p, 0)
  {
    forall j | 0 < j < |s| && p(s[j]) ensures !Outranks(s[j], s[0]) {
      assert s[j] == s[1..][j - 1];
    }
  }

  lemma ShiftForemost(s: seq<Annotated>, p: Annotated -> bool, k: nat)
    requires s != [] && IsForemost(s[1..], p, k)
    requires !p(s[0]) || Outranks(s[1..][k], s[0])
    ensures IsForemost(s, p, k + 1)
  {
    forall j | 0 <= j < |s| && j != k + 1 && p(s[j])
      ensures Outranks(s[k + 1], s[j]) || (!Outranks(s[j], s[k + 1]) && k + 1 < j)
    {
      if j > 0 {
        assert s[j] == s[1..][j - 1];
      }
    }
  }

  // Distinct primacies give a consistent order.

  ghost predicate AllOfPrimacy(s: seq<Annotated>, primacy: nat) {
    forall i :: 0 <= i < |s| ==> s[i].primacy == primacy
  }

  lemma {:induction false} AheadAreScheduled(primacy: nat, controls: seq<ScheduledControl>, now: Seconds)
    ensures var s := ScheduledAhead(primacy, controls, now);
            AllOfPrimacy(s, primacy) && forall i :: 0 <= i < |s| ==> s[i].control.ScheduledRef?
  {
    if controls != [] {
      AheadAreScheduled(primacy, controls[1..], now);
      var head := if IsAhead(controls[0], now) then [Annotated(primacy, ScheduledRef(controls[0]))] else [];
      assert ScheduledAhead(primacy, controls, now) == head + ScheduledAhead(primacy, controls[1..], now);
    }
  }

  predicate DistinctPrimacies(programs: seq<ProgramResource>) {
    forall i, j :: 0 <= i < j < |programs| ==> programs[i].primacy != programs[j].primacy
  }

  ghost predicate AvoidsPrimacy(s: seq<Annotated>, primacy: nat) {
    forall i :: 0 <= i < |s| ==> s[i].primacy != primacy
  }

  lemma {:induction false} OtherPrimacies(m: ModelState, programs: seq<ProgramResource>, now: Seconds, primacy: nat)
    requires forall k :: 0 <= k < |programs| ==> programs[k].primacy != primacy
    ensures AvoidsPrimacy(CandidatesOf(m, programs, now), primacy)
  {
    if programs != [] {
      AheadAreScheduled(programs[0].primacy, StoredControls(m, programs[0]), now);
      OtherPrimacies(m, programs[1..], now, primacy);
    }
  }

  /** Programs of pairwise distinct primacy never put two defaults of one primacy in the list. */
  lemma {:induction false} DistinctPrimaciesSuffice(m: ModelState, programs: seq<ProgramResource>, now: Seconds)
    requires DistinctPrimacies(programs)
    ensures OneDefaultPerPrimacy(CandidatesOf(m, programs, now))
  {
    if programs != [] {
      AheadAreScheduled(programs[0].primacy, StoredControls(m, programs[0]), now);
      DistinctPrimaciesSuffice(m, programs[1..], now);
      OtherPrimacies(m, programs[1..], now, programs[0].primacy);
      OneProgramMore(
        ScheduledAhead(programs[0].primacy, StoredControls(m, programs[0]), now), DefaultOf(m, programs[0]),
        CandidatesOf(m, programs[1..], now), programs[0].primacy);
    }
  }

  lemma OneProgramMore(ahead: seq<Annotated>, default: seq<Annotated>, rest: seq<Annotated>, primacy: nat)
    requires forall i :: 0 <= i < |ahead| ==> ahead[i].control.ScheduledRef?
    requires |default| <= 1 && AllOfPrimacy(default, primacy)
    requires OneDefaultPerPrimacy(rest) && AvoidsPrimacy(rest, primacy)
    ensures OneDefaultPerPrimacy(ahead + default + rest)
  {
    var s := ahead + default + rest;
    forall i, j | 0 <= i < j < |s| ensures !BothDefaults(s[i], s[j]) {
      var start := |ahead| + |default|;
      if start <= i {
        assert s[i] == rest[i - start] && s[j] == rest[j - start];
      } else if |ahead| <= i && start <= j {
        assert s[j] == rest[j - start];
      }
    }
  }
}
