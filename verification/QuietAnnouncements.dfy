/** The scheduler announces parameters and post rates only when they are other than those announced last. */
module QuietAnnouncements {
  import opened PostRateRuns
  import opened ResourceTypes
  import opened SchedulerSafety
  import opened SchedulerTask

  /** The event is not an announcement of what was announced last. */
  predicate IsNews(before: seq<Event>, event: Event) {
    match event
    case ParametersChanged(attributes) => attributes != LastParameters(before)
    case PostRatesChanged(postRates) => postRates != LastRates(before)
    case _ => true
  }

  ghost predicate OnlyNews(log: seq<Event>) {
    forall i :: 0 <= i < |log| ==> IsNews(log[..i], log[i])
  }

  lemma OneMore(log: seq<Event>, event: Event)
    requires OnlyNews(log) && IsNews(log, event)
    ensures OnlyNews(log + [event])
  {
    forall i | 0 <= i < |log + [event]| ensures IsNews((log + [event])[..i], (log + [event])[i]) {
      if i < |log| {
        assert (log + [event])[..i] == log[..i];
      } else {
        assert (log + [event])[..i] == log;
      }
    }
  }

  lemma {:induction false} MoreWithoutAnnouncements(log: seq<Event>, more: seq<Event>)
    requires OnlyNews(log) && NoAnnouncements(more)
    ensures OnlyNews(log + more)
  {
    if more == [] {
      assert log + more == log;
    } else {
      var n := |more| - 1;
      MoreWithoutAnnouncements(log, more[..n]);
      OneMore(log + more[..n], more[n]);
      assert log + more == log + more[..n] + [more[n]];
    }
  }

  lemma AnnouncementsAreNews(log: seq<Event>, s: LoopState, lfdi: Lfdi, now: Seconds)
    requires OnlyNews(log) && LastParameters(log) == s.priorParameters && LastRates(log) == s.priorPostRates
    ensures OnlyNews(log + Announcements(s, lfdi, now))
  {
    var announced := Announcements(s, lfdi, now);
    if announced == [] {
      assert log + announced == log;
    } else {
      OneMore(log, announced[0]);
      assert (log + [announced[0]])[..|log|] == log;
      if |announced| == 2 {
        OneMore(log + [announced[0]], announced[1]);
        assert log + announced == log + [announced[0]] + [announced[1]];
      } else {
        assert log + announced == log + [announced[0]];
      }
    }
  }

  lemma NewsStaysNews(w: World, lfdi: Lfdi, action: Action)
    requires TimerIsLatest(w, lfdi) && ParametersAreLatest(w, lfdi) && RatesAreLatest(w, lfdi) && CanAct(w, action)
    requires OnlyNews(w.log)
    ensures OnlyNews(Act(w, lfdi, action).log)
  {
    match action
    case MergeCommand(command, env) =>
      CommandsAreNotAnnouncements(w.state.model, command, env);
      MoreWithoutAnnouncements(w.log, CommandEvents(w.state.model, command, env));
    case PlanAt(now) => AnnouncementsAreNews(w.log, w.state, lfdi, now);
    case RearmTimer =>
    case Emit(_) => OneMore(w.log, w.state.timer.value.next.events[w.state.timer.value.sent]);
  }

  /** In every run parameters and post rates are announced only if they are other than those announced before. */
  lemma {:induction false} AnnouncedOnlyWhenChanged(worlds: seq<World>, lfdi: Lfdi, actions: seq<Action>,
                                                    model: ModelState, i: nat)
    requires IsRun(worlds, lfdi, actions) && StartsFresh(worlds[0], model) && i < |worlds|
    ensures OnlyNews(worlds[i].log)
  {
    if i > 0 {
      AnnouncedOnlyWhenChanged(worlds, lfdi, actions, model, i - 1);
      RunKeepsLatest(worlds, lfdi, actions, i - 1);
      RunKeepsRates(worlds, lfdi, actions, i - 1);
      NewsStaysNews(worlds[i - 1], lfdi, actions[i - 1]);
    }
  }
}
