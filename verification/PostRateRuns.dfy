/** Which rates the scheduler broadcasts for posting to the server, and that those broadcast last are current. */
module PostRateRuns {
  import opened ResourceTypes
  import opened SchedulerSafety
  import opened SchedulerTask
  import opened Wrappers

  /** The DERList that the stored device links to is stored with this poll rate. */
  ghost predicate DerRateIs(m: ModelState, lfdi: Lfdi, rate: nat) {
    lfdi in m.endDevices &&
    var link := m.endDevices[lfdi].derListLink;
    link.Some? && link.value in m.derLists && m.derLists[link.value].pollRate == Some(rate)
  }

  /** The first mirror usage point of the device in the list gives this post rate. */
  ghost predicate FirstMupGives(mups: seq<MirrorUsagePoint>, lfdi: Lfdi, rate: nat, i: int) {
    && 0 <= i < |mups| && mups[i].deviceLfdi == lfdi && mups[i].postRate == Some(rate)
    && forall j :: 0 <= j < i ==> mups[j].deviceLfdi != lfdi
  }

  ghost predicate MupRateIs(m: ModelState, lfdi: Lfdi, rate: nat) {
    m.mupList.Some? && exists i :: FirstMupGives(m.mupList.value.mirrorUsagePoints, lfdi, rate, i)
  }

  lemma {:induction false} FirstMup(mups: seq<MirrorUsagePoint>, lfdi: Lfdi, rate: nat)
    ensures (FirstMupOf(mups, lfdi).Some? && FirstMupOf(mups, lfdi).value.postRate == Some(rate))
       <==> exists i :: FirstMupGives(mups, lfdi, rate, i)
  {
    if mups != [] {
      if mups[0].deviceLfdi == lfdi {
        assert FirstMupOf(mups, lfdi).value.postRate == Some(rate) ==> FirstMupGives(mups, lfdi, rate, 0);
      } else {
        FirstMup(mups[1..], lfdi, rate);
        if i :| FirstMupGives(mups[1..], lfdi, rate, i) {
          assert FirstMupGives(mups, lfdi, rate, i + 1);
        }
        if i :| FirstMupGives(mups, lfdi, rate, i) {
          assert FirstMupGives(mups[1..], lfdi, rate, i - 1);
        }
      }
    }
  }

  /** The rates of a model: the DER's from the device's DERList, the readings' from its mirror usage point. */
  lemma RatesOfModel(m: ModelState, lfdi: Lfdi, rate: nat)
    ensures var r := CurrentPostRates(m, lfdi);
            && (r.der == Some(rate) <==> DerRateIs(m, lfdi, rate))
            && (r.mirrorUsagePoint == Some(rate) <==> MupRateIs(m, lfdi, rate))
  {
    if m.mupList.Some? {
      FirstMup(m.mupList.value.mirrorUsagePoints, lfdi, rate);
    }
  }

  // Runs.

  /** Without any broadcast, no rate is known. */
  function LastRates(log: seq<Event>): PostRates {
    if log == [] then PostRates(None, None)
    else if log[|log| - 1].PostRatesChanged? then log[|log| - 1].postRates
    else LastRates(log[..|log| - 1])
  }

  ghost predicate NoRates(events: seq<Event>) {
    forall i :: 0 <= i < |events| ==> !events[i].PostRatesChanged?
  }

  lemma {:induction false} LastRatesConcat(a: seq<Event>, b: seq<Event>)
    requires NoRates(b)
    ensures LastRates(a + b) == LastRates(a)
  {
    if b == [] {
      assert a + b == a;
    } else {
      assert (a + b)[..|a + b| - 1] == a + b[..|b| - 1];
      LastRatesConcat(a, b[..|b| - 1]);
    }
  }

  /** The last rates broadcast are those of the last planning. */
  ghost predicate RatesAreLatest(w: World, lfdi: Lfdi) {
    && LastRates(w.log) == w.state.priorPostRates
    && (w.handled.Some? && !w.phase.AfterMerge? ==> w.state.priorPostRates == CurrentPostRates(w.state.model, lfdi))
  }

  lemma AnnouncingKeepsRates(log: seq<Event>, s: LoopState, lfdi: Lfdi, now: Seconds)
    requires LastRates(log) == s.priorPostRates
    ensures LastRates(log + Announcements(s, lfdi, now)) == CurrentPostRates(s.model, lfdi)
  {
    var announced := Announcements(s, lfdi, now);
    var changed, n := CurrentPostRates(s.model, lfdi) != s.priorPostRates, |log| + 1;
    if changed {
      assert (log + announced)[..n][|log|] == announced[0];
      assert log + announced == (log + announced)[..n] + announced[1..];
      LastRatesConcat((log + announced)[..n], announced[1..]);
    } else {
      LastRatesConcat(log, announced);
    }
  }

  lemma RatesStayLatest(w: World, lfdi: Lfdi, action: Action)
    requires TimerIsLatest(w, lfdi) && RatesAreLatest(w, lfdi) && CanAct(w, action)
    ensures RatesAreLatest(Act(w, lfdi, action), lfdi)
  {
    match action
    case MergeCommand(command, env) =>
      CommandsAreNotAnnouncements(w.state.model, command, env);
      LastRatesConcat(w.log, CommandEvents(w.state.model, command, env));
    case PlanAt(now) => AnnouncingKeepsRates(w.log, w.state, lfdi, now);
    case RearmTimer =>
    case Emit(_) => LastRatesConcat(w.log, [w.state.timer.value.next.events[w.state.timer.value.sent]]);
  }

  lemma {:induction false} RunKeepsRates(worlds: seq<World>, lfdi: Lfdi, actions: seq<Action>, i: nat)
    requires IsRun(worlds, lfdi, actions) && i < |worlds|
    requires TimerIsLatest(worlds[0], lfdi) && ParametersAreLatest(worlds[0], lfdi) && RatesAreLatest(worlds[0], lfdi)
    ensures RatesAreLatest(worlds[i], lfdi)
  {
    if i > 0 {
      RunKeepsRates(worlds, lfdi, actions, i - 1);
      RunKeepsLatest(worlds, lfdi, actions, i - 1);
      RatesStayLatest(worlds[i - 1], lfdi, actions[i - 1]);
    }
  }

  /**
   In every run, whenever no merged update is still to be planned for, the rates broadcast last are
   the current ones.
   */
  lemma PostRatesNeverStale(worlds: seq<World>, lfdi: Lfdi, actions: seq<Action>, model: ModelState, rate: nat)
    requires IsRun(worlds, lfdi, actions) && StartsFresh(worlds[0], model)
    ensures var w := worlds[|actions|];
            w.handled.Some? && !w.phase.AfterMerge? ==>
              && (LastRates(w.log).der == Some(rate) <==> DerRateIs(w.state.model, lfdi, rate))
              && (LastRates(w.log).mirrorUsagePoint == Some(rate) <==> MupRateIs(w.state.model, lfdi, rate))
  {
    RunKeepsRates(worlds, lfdi, actions, |actions|);
    RatesOfModel(worlds[|actions|].state.model, lfdi, rate);
  }
}
