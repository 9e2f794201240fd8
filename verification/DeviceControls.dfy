/** Which controls apply to a device, path by path through the stored lists, and what its parameters are. */
module DeviceControls {
  import opened ControlPriority
  import opened ParameterLayering
  import opened ResourceGraph
  import opened ResourceTypes
  import opened Wrappers

  /** The list stored at the linked href names the id, and something is stored under the id. */
  ghost predicate Leads<V>(lists: map<Href, IDList<Mrid>>, link: Option<Href>, id: Mrid, items: map<Mrid, V>) {
    link.Some? && link.value in lists && id in lists[link.value].items && id in items
  }

  /** The FSA list of the device leads to the FSA, whose program list leads to the program. */
  ghost predicate IsPath(m: ModelState, lfdi: Lfdi, fsa: Mrid, program: Mrid) {
    && lfdi in m.endDevices
    && Leads(m.fsaLists, m.endDevices[lfdi].fsaListLink, fsa, m.fsas)
    && Leads(m.programLists, m.fsas[fsa].programListLink, program, m.programs)
  }

  /** The program links to the stored default control. */
  ghost predicate GivesDefault(m: ModelState, program: ProgramResource, default: DefaultControlResource) {
    var link := program.defaultControlLink;
    link.Some? && link.value in m.defaultControls && m.defaultControls[link.value] == default
  }

  /** The control list of the program names the stored control, which is still to start or to end. */
  ghost predicate GivesScheduled(m: ModelState, program: ProgramResource, now: Seconds, s: ScheduledControl) {
    && (exists id :: Leads(m.controlLists, program.controlListLink, id, m.controls) && m.controls[id] == s)
    && (s.control.currentStatus == Scheduled || s.control.currentStatus == Active)
    && s.startTime + s.duration > now
  }

  ghost predicate Gives(m: ModelState, program: ProgramResource, now: Seconds, a: Annotated) {
    && a.primacy == program.primacy
    && match a.control
       case DefaultRef(default) => GivesDefault(m, program, default)
       case ScheduledRef(s) => GivesScheduled(m, program, now, s)
  }

  /** The control applies to the device now or later, with this primacy. */
  ghost predicate Applies(m: ModelState, lfdi: Lfdi, now: Seconds, a: Annotated) {
    exists fsa, program :: IsPath(m, lfdi, fsa, program) && Gives(m, m.programs[program], now, a)
  }

  // The candidates are the controls that apply.

  lemma {:induction false} LookedUp<V>(ids: seq<Mrid>, items: map<Mrid, V>, x: V)
    ensures x in Lookup(ids, items) <==> exists id :: id in ids && id in items && items[id] == x
  {
    if ids != [] {
      LookedUp(ids[1..], items, x);
      assert forall id :: id in ids <==> id == ids[0] || id in ids[1..];
    }
  }

  lemma Listed<V>(lists: map<Href, IDList<Mrid>>, link: Option<Href>, items: map<Mrid, V>, x: V)
    requires link.Some?
    ensures x in ListItems(Get(lists, link.value), items)
       <==> exists id :: Leads(lists, link, id, items) && items[id] == x
  {
    if link.value in lists {
      LookedUp(lists[link.value].items, items, x);
      forall id ensures Leads(lists, link, id, items) <==> id in lists[link.value].items && id in items {
      }
    }
  }

  lemma {:induction false} ProgramsOfAre(m: ModelState, fsas: seq<FsaResource>, program: ProgramResource)
    ensures program in ProgramsOf(m, fsas)
       <==> exists fsa, id :: fsa in fsas && Leads(m.programLists, fsa.programListLink, id, m.programs)
                              && m.programs[id] == program
  {
    if fsas != [] {
      ProgramsOfAre(m, fsas[1..], program);
      if fsas[0].programListLink.Some? {
        Listed(m.programLists, fsas[0].programListLink, m.programs, program);
      }
      assert forall fsa :: fsa in fsas <==> fsa == fsas[0] || fsa in fsas[1..];
    }
  }

  lemma ProgramsAre(m: ModelState, lfdi: Lfdi, program: ProgramResource)
    ensures program in ProgramsForDevice(m, lfdi)
       <==> exists fsa, id :: IsPath(m, lfdi, fsa, id) && m.programs[id] == program
  {
    if lfdi in m.endDevices && m.endDevices[lfdi].fsaListLink.Some? {
      var link := m.endDevices[lfdi].fsaListLink;
      var fsas := ListItems(Get(m.fsaLists, link.value), m.fsas);
      ProgramsOfAre(m, fsas, program);
      if program in ProgramsOf(m, fsas) {
        var fsa, id :| && fsa in fsas && Leads(m.programLists, fsa.programListLink, id, m.programs)
                       && m.programs[id] == program;
        Listed(m.fsaLists, link, m.fsas, fsa);
        var f :| Leads(m.fsaLists, link, f, m.fsas) && m.fsas[f] == fsa;
        assert IsPath(m, lfdi, f, id);
      }
      if f, id :| IsPath(m, lfdi, f, id) && m.programs[id] == program {
        Listed(m.fsaLists, link, m.fsas, m.fsas[f]);
      }
    }
  }

  lemma {:induction false} AheadAre(primacy: nat, controls: seq<ScheduledControl>, now: Seconds, a: Annotated)
    ensures a in ScheduledAhead(primacy, controls, now)
       <==> && a.primacy == primacy && a.control.ScheduledRef? && a.control.scheduled in controls
            && var s := a.control.scheduled;
            && (s.control.currentStatus == Scheduled || s.control.currentStatus == Active)
            && s.startTime + s.duration > now
  {
    if controls != [] {
      AheadAre(primacy, controls[1..], now, a);
      assert forall s :: s in controls <==> s == controls[0] || s in controls[1..];
    }
  }

  lemma GivenBy(m: ModelState, program: ProgramResource, now: Seconds, a: Annotated)
    ensures a in ScheduledAhead(program.primacy, StoredControls(m, program), now) + DefaultOf(m, program)
       <==> Gives(m, program, now, a)
  {
    AheadAre(program.primacy, StoredControls(m, program), now, a);
    if a.control.ScheduledRef? && program.controlListLink.Some? {
      Listed(m.controlLists, program.controlListLink, m.controls, a.control.scheduled);
    }
  }

  lemma {:induction false} CandidatesOfAre(
    m: ModelState, programs: seq<ProgramResource>, now: Seconds, a: Annotated)
    ensures a in CandidatesOf(m, programs, now) <==> exists program :: program in programs && Gives(m, program, now, a)
  {
    if programs != [] {
      CandidatesOfAre(m, programs[1..], now, a);
      GivenBy(m, programs[0], now, a);
      assert forall program :: program in programs <==> program == programs[0] || program in programs[1..];
    }
  }

  /** The candidates of a device are exactly the controls that some path through the stored lists leads to. */
  lemma CandidatesExactly(m: ModelState, lfdi: Lfdi, now: Seconds, a: Annotated)
    ensures a in Candidates(m, lfdi, now) <==> Applies(m, lfdi, now, a)
  {
    var programs := ProgramsForDevice(m, lfdi);
    CandidatesOfAre(m, programs, now, a);
    if a in Candidates(m, lfdi, now) {
      var program :| program in programs && Gives(m, program, now, a);
      ProgramsAre(m, lfdi, program);
    }
    if fsa, id :| IsPath(m, lfdi, fsa, id) && Gives(m, m.programs[id], now, a) {
      ProgramsAre(m, lfdi, m.programs[id]);
    }
  }

  // Their order: list by list, and within a list in its order.

  lemma Associative<T>(a: seq<T>, b: seq<T>, c: seq<T>)
    ensures a + b + c == a + (b + c)
  {
  }

  lemma {:induction false} LookupInOrder<V>(before: seq<Mrid>, after: seq<Mrid>, items: map<Mrid, V>)
    ensures Lookup(before + after, items) == Lookup(before, items) + Lookup(after, items)
  {
    if before == [] {
      assert before + after == after;
    } else {
      assert (before + after)[1..] == before[1..] + after;
      LookupInOrder(before[1..], after, items);
    }
  }

  lemma {:induction false} ProgramsInOrder(m: ModelState, before: seq<FsaResource>, after: seq<FsaResource>)
    ensures ProgramsOf(m, before + after) == ProgramsOf(m, before) + ProgramsOf(m, after)
  {
    if before == [] {
      assert before + after == after;
    } else {
      assert (before + after)[1..] == before[1..] + after;
      ProgramsInOrder(m, before[1..], after);
    }
  }

  lemma {:induction false} AheadInOrder(primacy: nat, before: seq<ScheduledControl>, after: seq<ScheduledControl>,
                                        now: Seconds)
    ensures ScheduledAhead(primacy, before + after, now)
         == ScheduledAhead(primacy, before, now) + ScheduledAhead(primacy, after, now)
  {
    if before == [] {
      assert before + after == after;
    } else {
      assert (before + after)[1..] == before[1..] + after;
      AheadInOrder(primacy, before[1..], after, now);
      Associative(if IsAhead(before[0], now) then [Annotated(primacy, ScheduledRef(before[0]))] else [],
                  ScheduledAhead(primacy, before[1..], now), ScheduledAhead(primacy, after, now));
    }
  }

  lemma {:induction false} CandidatesConcat(m: ModelState, before: seq<ProgramResource>, after: seq<ProgramResource>,
                                            now: Seconds)
    ensures CandidatesOf(m, before + after, now) == CandidatesOf(m, before, now) + CandidatesOf(m, after, now)
  {
    if before == [] {
      assert before + after == after;
    } else {
      assert (before + after)[1..] == before[1..] + after;
      CandidatesConcat(m, before[1..], after, now);
      Associative(ScheduledAhead(before[0].primacy, StoredControls(m, before[0]), now) + DefaultOf(m, before[0]),
                  CandidatesOf(m, before[1..], now), CandidatesOf(m, after, now));
    }
  }

  /** The candidates come program by program; of each first its scheduled controls and then its default. */
  lemma CandidatesInOrder(m: ModelState, before: seq<ProgramResource>, program: ProgramResource,
                          after: seq<ProgramResource>, now: Seconds)
    ensures CandidatesOf(m, before + [program] + after, now)
         == CandidatesOf(m, before, now)
            + (ScheduledAhead(program.primacy, StoredControls(m, program), now) + DefaultOf(m, program))
            + CandidatesOf(m, after, now)
  {
    CandidatesConcat(m, before + [program], after, now);
    CandidatesConcat(m, before, [program], now);
    OneProgram(m, program, now);
  }

  lemma OneProgram(m: ModelState, program: ProgramResource, now: Seconds)
    ensures CandidatesOf(m, [program], now)
         == ScheduledAhead(program.primacy, StoredControls(m, program), now) + DefaultOf(m, program)
  {
    assert CandidatesOf(m, [program][1..], now) == [];
  }

  // The parameters of a device.

  /** The control applies and gives the base attribute this value; no other that gives the attribute outranks it. */
  ghost predicate BaseComesFrom(m: ModelState, lfdi: Lfdi, now: Seconds, key: string, value: AttributeValue,
                                a: Annotated)
  {
    && Applies(m, lfdi, now, a) && GivesBase(a.control, key, now) && BaseGiven(a.control, key, now) == value
    && forall b :: Applies(m, lfdi, now, b) && GivesBase(b.control, key, now) ==> !Outranks(b, a)
  }

  ghost predicate SettingComesFrom(m: ModelState, lfdi: Lfdi, now: Seconds, key: string, value: int, a: Annotated) {
    && Applies(m, lfdi, now, a) && GivesSetting(a.control, key) && a.control.default.settings[key] == value
    && forall b :: Applies(m, lfdi, now, b) && GivesSetting(b.control, key) ==> !Outranks(b, a)
  }

  /**
   A device has a base attribute exactly when a default control that applies to it has it, or a scheduled control
   that applies to it and is in its interval; the value is that of one that none of these outranks. A setting comes
   from the default controls alone.
   */
  lemma ParametersOfDevice(m: ModelState, lfdi: Lfdi, now: Seconds, key: string)
    requires OneDefaultPerPrimacy(Candidates(m, lfdi, now))
    ensures var r := CalcParameters(m, lfdi, now);
            && (key in r.base <==> exists a :: Applies(m, lfdi, now, a) && GivesBase(a.control, key, now))
            && (key in r.base ==> exists a :: BaseComesFrom(m, lfdi, now, key, r.base[key], a))
            && (key in r.settings <==> exists a :: Applies(m, lfdi, now, a) && GivesSetting(a.control, key))
            && (key in r.settings ==> exists a :: SettingComesFrom(m, lfdi, now, key, r.settings[key], a))
  {
    var s, r := Candidates(m, lfdi, now), CalcParameters(m, lfdi, now);
    ParametersAreLayered(m, lfdi, now, key);
    forall a ensures a in s <==> Applies(m, lfdi, now, a) {
      CandidatesExactly(m, lfdi, now, a);
    }
    if key in r.base {
      var i: nat :| BaseDecidedBy(s, now, key, i, r.base[key]);
      ForemostOutranked(s, SetsBase(key, now), i);
      assert BaseComesFrom(m, lfdi, now, key, r.base[key], s[i]) by {
        forall b | Applies(m, lfdi, now, b) && GivesBase(b.control, key, now) ensures !Outranks(b, s[i]) {
          assert b in s && SetsBase(key, now)(b);
        }
      }
    }
    if key in r.settings {
      var i: nat :| SettingDecidedBy(s, key, i, r.settings[key]);
      ForemostOutranked(s, SetsSetting(key), i);
      assert SettingComesFrom(m, lfdi, now, key, r.settings[key], s[i]) by {
        forall b | Applies(m, lfdi, now, b) && GivesSetting(b.control, key) ensures !Outranks(b, s[i]) {
          assert b in s && SetsSetting(key)(b);
        }
      }
    }
  }

  lemma ForemostOutranked(s: seq<Annotated>, p: Annotated -> bool, i: nat)
    requires IsForemost(s, p, i)
    ensures forall b :: b in s && p(b) ==> !Outranks(b, s[i])
  {
    forall b | b in s && p(b) ensures !Outranks(b, s[i]) {
      var j :| 0 <= j < |s| && s[j] == b;
    }
  }
}
