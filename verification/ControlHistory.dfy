/** The life of one control in the model: its interval is chosen once, its status edges are answered one for one. */
module ControlHistory {
  import opened ResourceTypes
  import opened ResourceGraph
  import opened LinkEvents
  import opened ModelUpdates
  import opened ModelRuns

  /** The control is in the model at the start of the run and after each of its updates. */
  ghost predicate Stays(m: ModelState, steps: seq<Step>, id: Mrid) {
    id in AfterRun(m, steps).controls && (steps == [] || Stays(m, steps[..|steps| - 1], id))
  }

  // Intervals.

  ghost predicate SameInterval(a: ScheduledControl, b: ScheduledControl) {
    a.startTime == b.startTime && a.duration == b.duration
  }

  lemma {:induction false} SetControlsKeepsInterval(controls: map<Mrid, ScheduledControl>,
                                                    incoming: seq<ControlResource>, env: Env, id: Mrid)
    requires id in controls
    ensures var after := SetControls(controls, incoming, env).0;
            id in after && SameInterval(after[id], controls[id])
  {
    if incoming != [] {
      var n := |incoming| - 1;
      SetControlsKeepsInterval(controls, incoming[..n], env, id);
      var before := SetControls(controls, incoming[..n], env).0;
      assert SetControls(controls, incoming, env).0 == SetControl(before, incoming[n], env.draw(n), env.now).0;
    }
  }

  lemma MergeKeepsInterval(m: ModelState, update: Update, env: Env, id: Mrid)
    requires id in m.controls
    ensures id in Merged(m, update, env).controls && SameInterval(Merged(m, update, env).controls[id], m.controls[id])
  {
    if update.ControlListUpdate? && update.controls.href.Some? {
      SetControlsKeepsInterval(m.controls, update.controls.items, env, id);
      assert Merged(m, update, env).controls == SetControls(m.controls, update.controls.items, env).0;
    } else {
      assert Merged(m, update, env).controls == m.controls;
    }
  }

  /** While a control stays in the model, no update changes its realised interval. */
  lemma {:induction false} IntervalChosenOnce(m: ModelState, steps: seq<Step>, id: Mrid)
    requires Stays(m, steps, id)
    ensures id in m.controls && SameInterval(AfterRun(m, steps).controls[id], m.controls[id])
  {
    if steps != [] {
      var n := |steps| - 1;
      IntervalChosenOnce(m, steps[..n], id);
      MergeKeepsInterval(AfterRun(m, steps[..n]), steps[n].update, steps[n].env, id);
    }
  }

  /** A number drawn from the range the control asks for: none exists when the range is empty. */
  predicate DrawnWithin(control: ControlResource, draw: Draw) {
    var s, d := control.randomizeStart.UnwrapOr(0), control.randomizeDuration.UnwrapOr(0);
    -s <= draw.startShift <= s && -d <= draw.durationShift <= d
  }

  ghost predicate FirstWith(incoming: seq<ControlResource>, i: nat, id: Mrid) {
    && i < |incoming| && incoming[i].mrid == id
    && forall j :: 0 <= j < i ==> incoming[j].mrid != id
  }

  lemma {:induction false} NewControlIsRealised(
    controls: map<Mrid, ScheduledControl>, incoming: seq<ControlResource>, env: Env, id: Mrid) returns (i: nat)
    requires id !in controls && id in SetControls(controls, incoming, env).0
    ensures FirstWith(incoming, i, id)
    ensures SameInterval(SetControls(controls, incoming, env).0[id], Realise(incoming[i], env.draw(i)))
  {
    var n := |incoming| - 1;
    var before := SetControls(controls, incoming[..n], env).0;
    assert SetControls(controls, incoming, env).0 == SetControl(before, incoming[n], env.draw(n), env.now).0;
    if id in before {
      i := NewControlIsRealised(controls, incoming[..n], env, id);
    } else {
      NotYetSeen(controls, incoming[..n], env, id);
      i := n;
    }
  }

  lemma {:induction false} NotYetSeen(controls: map<Mrid, ScheduledControl>, incoming: seq<ControlResource>, env: Env,
                                      id: Mrid)
    ensures id in SetControls(controls, incoming, env).0
       <==> id in controls || exists i :: 0 <= i < |incoming| && incoming[i].mrid == id
  {
    if incoming != [] {
      var n := |incoming| - 1;
      NotYetSeen(controls, incoming[..n], env, id);
      var before := SetControls(controls, incoming[..n], env).0;
      assert SetControls(controls, incoming, env).0 == SetControl(before, incoming[n], env.draw(n), env.now).0;
    }
  }

  /**
   A control new to the model has the interval of its first mention in the list, shifted by at most
   what that mention allows; its duration is floored at zero, and is right unless it exceeds a u32.
   */
  lemma RealisedWithinBounds(m: ModelState, list: ListResource<ControlResource>, env: Env, id: Mrid) returns (i: nat)
    requires var update := ControlListUpdate(list);
             id !in m.controls && id in Applied(m, update, env).controls
    requires forall j :: 0 <= j < |list.items| ==> DrawnWithin(list.items[j], env.draw(j))
    ensures FirstWith(list.items, i, id)
    ensures var c, stored := list.items[i], Applied(m, ControlListUpdate(list), env).controls[id];
            var shifted := c.intervalDuration + env.draw(i).durationShift;
            && stored.startTime == c.intervalStart + env.draw(i).startShift
            && c.intervalStart - c.randomizeStart.UnwrapOr(0) <= stored.startTime <= c.intervalStart
               + c.randomizeStart.UnwrapOr(0)
            && 0 <= stored.duration < 0x1_0000_0000
            && (stored.duration == (if shifted < 0 then 0 else shifted) <==> shifted < 0x1_0000_0000)
            && (shifted < 0x1_0000_0000 ==>
                  c.intervalDuration - c.randomizeDuration.UnwrapOr(0) <= stored.duration
                  && (stored.duration == 0 || stored.duration <= c.intervalDuration + c.randomizeDuration.UnwrapOr(0)))
  {
    i := NewControlIsRealised(m.controls, list.items, env, id);
    assert DrawnWithin(list.items[i], env.draw(i));
    RealisedBounds(list.items[i], env.draw(i));
    assert SameInterval(Applied(m, ControlListUpdate(list), env).controls[id], Realise(list.items[i], env.draw(i)));
  }

  lemma RealisedBounds(c: ControlResource, draw: Draw)
    requires DrawnWithin(c, draw)
    ensures var stored, shifted := Realise(c, draw), c.intervalDuration + draw.durationShift;
            && c.intervalStart - c.randomizeStart.UnwrapOr(0) <= stored.startTime <= c.intervalStart
               + c.randomizeStart.UnwrapOr(0)
            && 0 <= stored.duration < 0x1_0000_0000
            && (stored.duration == (if shifted < 0 then 0 else shifted) <==> shifted < 0x1_0000_0000)
            && (shifted < 0x1_0000_0000 ==>
                  c.intervalDuration - c.randomizeDuration.UnwrapOr(0) <= stored.duration
                  && (stored.duration == 0 || stored.duration <= c.intervalDuration + c.randomizeDuration.UnwrapOr(0)))
  {
  }

  // Status edges.

  function CountResponses(events: seq<Event>, id: Mrid, status: ResponseStatus): nat {
    if events == [] then 0 else
    (match events[0]
     case DERControlStatusChanged(subject, s, _) => if subject == id && s == status then 1 else 0
     case _ => 0)
    + CountResponses(events[1..], id, status)
  }

  lemma {:induction false} CountConcat(a: seq<Event>, b: seq<Event>, id: Mrid, status: ResponseStatus)
    ensures CountResponses(a + b, id, status) == CountResponses(a, id, status) + CountResponses(b, id, status)
  {
    if a == [] {
      assert a + b == b;
    } else {
      assert (a + b)[1..] == a[1..] + b;
      CountConcat(a[1..], b, id, status);
    }
  }

  lemma {:induction false} NoResponses(events: seq<Event>, id: Mrid, status: ResponseStatus)
    requires forall i :: 0 <= i < |events| ==> !events[i].DERControlStatusChanged?
    ensures CountResponses(events, id, status) == 0
  {
    if events != [] {
      NoResponses(events[1..], id, status);
    }
  }

  lemma {:induction false} RemovalsAreLinks(prior: ResourceLinks, hrefs: seq<Href>)
    requires forall h :: h in hrefs ==> h in prior
    ensures forall i :: 0 <= i < |Removals(prior, hrefs)| ==> Removals(prior, hrefs)[i].LinkRemoved?
  {
    if hrefs != [] {
      RemovalsAreLinks(prior, hrefs[1..]);
    }
  }

  lemma {:induction false} AdditionsAreLinks(post: ResourceLinks, hrefs: seq<Href>)
    requires forall h :: h in hrefs ==> h in post
    ensures forall i :: 0 <= i < |Additions(post, hrefs)| ==> Additions(post, hrefs)[i].LinkAddedOrUpdated?
  {
    if hrefs != [] {
      AdditionsAreLinks(post, hrefs[1..]);
    }
  }

  lemma UpdateResponses(m: ModelState, update: Update, env: Env, id: Mrid, status: ResponseStatus)
    ensures CountResponses(UpdateEvents(m, update, env), id, status)
         == CountResponses(ControlEvents(m, update, env), id, status)
  {
    var prior, post := Links(m), Links(Merged(m, update, env));
    CountConcat(LinkEventsBetween(prior, post), ControlEvents(m, update, env), id, status);
    LinkEventsAreNotResponses(prior, post);
    NoResponses(LinkEventsBetween(prior, post), id, status);
  }

  lemma LinkEventsAreNotResponses(prior: ResourceLinks, post: ResourceLinks)
    ensures forall i :: 0 <= i < |LinkEventsBetween(prior, post)|
                        ==> !LinkEventsBetween(prior, post)[i].DERControlStatusChanged?
  {
    RemovalsAreLinks(prior, HrefOrder.InOrder(RemovedHrefs(prior, post)));
    AdditionsAreLinks(post, HrefOrder.InOrder(ChangedHrefs(prior, post)));
  }

  /** The mentions of one control, in the order they arrive. */
  function Mentions(incoming: seq<ControlResource>, id: Mrid): seq<ControlResource> {
    if incoming == [] then [] else
    var n := |incoming| - 1;
    Mentions(incoming[..n], id) + (if incoming[n].mrid == id then [incoming[n]] else [])
  }

  function MentionsIn(update: Update, id: Mrid): seq<ControlResource> {
    match update
    case ControlListUpdate(list) => if list.href.Some? then Mentions(list.items, id) else []
    case _ => []
  }

  function MentionsOver(steps: seq<Step>, id: Mrid): seq<ControlResource> {
    if steps == [] then [] else
    var n := |steps| - 1;
    MentionsOver(steps[..n], id) + MentionsIn(steps[n].update, id)
  }

  function LatestStatus(prior: EventStatusType, mentions: seq<ControlResource>): EventStatusType {
    if mentions == [] then prior else mentions[|mentions| - 1].currentStatus
  }

  /** How often the status changes into `target` with a mention that asks for a response. */
  function Edges(prior: EventStatusType, mentions: seq<ControlResource>, target: EventStatusType): nat {
    if mentions == [] then 0 else
    var n := |mentions| - 1;
    Edges(prior, mentions[..n], target)
    + (if && LatestStatus(prior, mentions[..n]) != mentions[n].currentStatus == target
          && mentions[n].AsksToReport() then 1 else 0)
  }

  lemma {:induction false} EdgesConcat(prior: EventStatusType, a: seq<ControlResource>, b: seq<ControlResource>,
                                       target: EventStatusType)
    ensures Edges(prior, a + b, target) == Edges(prior, a, target) + Edges(LatestStatus(prior, a), b, target)
    ensures LatestStatus(prior, a + b) == LatestStatus(LatestStatus(prior, a), b)
  {
    if b == [] {
      assert a + b == a;
    } else {
      var n := |b| - 1;
      assert (a + b)[..|a + b| - 1] == a + b[..n];
      EdgesConcat(prior, a, b[..n], target);
    }
  }

  /** The response status that answers a change into this status. */
  function AnswerTo(target: EventStatusType): ResponseStatus
    requires target == Cancelled || target == Superseded
  {
    if target == Cancelled then EventCancelled else EventSuperseded
  }

  lemma OneMention(prior: EventStatusType, incoming: ControlResource, id: Mrid, target: EventStatusType)
    requires target == Cancelled || target == Superseded
    ensures CountResponses(StatusChangeEvents(prior, incoming), id, AnswerTo(target))
         == if incoming.mrid == id && prior != incoming.currentStatus == target
               && incoming.AsksToReport() then 1 else 0
  {
  }

  lemma ArrivalIsNoEdge(control: ScheduledControl, now: Seconds, id: Mrid, target: EventStatusType)
    requires target == Cancelled || target == Superseded
    ensures CountResponses(ArrivalEvents(control, now), id, AnswerTo(target)) == 0
  {
    var received := ResponseIfRequired(control.control, false, EventReceived);
    var started := if AlreadyStarted(control, now) then ResponseIfRequired(control.control, true, EventStarted) else [];
    CountConcat(received, started, id, AnswerTo(target));
  }

  lemma {:induction false} SetControlsEdges(
    controls: map<Mrid, ScheduledControl>, incoming: seq<ControlResource>, env: Env, id: Mrid, target: EventStatusType)
    requires target == Cancelled || target == Superseded
    requires id in controls
    ensures var (after, events) := SetControls(controls, incoming, env);
            var prior := controls[id].control.currentStatus;
            && id in after
            && after[id].control.currentStatus == LatestStatus(prior, Mentions(incoming, id))
            && CountResponses(events, id, AnswerTo(target)) == Edges(prior, Mentions(incoming, id), target)
  {
    if incoming != [] {
      var n := |incoming| - 1;
      SetControlsEdges(controls, incoming[..n], env, id, target);
      var prior := controls[id].control.currentStatus;
      var (before, events) := SetControls(controls, incoming[..n], env);
      var (after, more) := SetControl(before, incoming[n], env.draw(n), env.now);
      assert SetControls(controls, incoming, env) == (after, events + more);
      CountConcat(events, more, id, AnswerTo(target));
      if incoming[n].mrid in before {
        OneMention(before[incoming[n].mrid].control.currentStatus, incoming[n], id, target);
      } else {
        ArrivalIsNoEdge(Realise(incoming[n], env.draw(n)), env.now, id, target);
      }
      if incoming[n].mrid == id {
        assert Mentions(incoming, id)[..|Mentions(incoming, id)| - 1] == Mentions(incoming[..n], id);
      } else {
        assert Mentions(incoming, id) == Mentions(incoming[..n], id);
      }
    }
  }

  lemma MergeEdges(m: ModelState, update: Update, env: Env, id: Mrid, target: EventStatusType)
    requires target == Cancelled || target == Superseded
    requires id in m.controls
    ensures var prior, after := m.controls[id].control.currentStatus, Merged(m, update, env).controls;
            && id in after
            && after[id].control.currentStatus == LatestStatus(prior, MentionsIn(update, id))
            && CountResponses(ControlEvents(m, update, env), id, AnswerTo(target))
               == Edges(prior, MentionsIn(update, id), target)
  {
    match update
    case ControlListUpdate(list) =>
      if list.href.Some? {
        SetControlsEdges(m.controls, list.items, env, id, target);
        var (after, events) := SetControls(m.controls, list.items, env);
        assert Merged(m, update, env).controls == after && ControlEvents(m, update, env) == events;
      }
    case _ =>
      assert Merged(m, update, env).controls == m.controls && ControlEvents(m, update, env) == [];
  }

  lemma UpdateEdges(m: ModelState, update: Update, env: Env, id: Mrid, target: EventStatusType)
    requires target == Cancelled || target == Superseded
    requires id in m.controls && id in Applied(m, update, env).controls
    ensures var prior := m.controls[id].control.currentStatus;
            && Applied(m, update, env).controls[id].control.currentStatus == LatestStatus(prior, MentionsIn(update, id))
            && CountResponses(UpdateEvents(m, update, env), id, AnswerTo(target))
               == Edges(prior, MentionsIn(update, id), target)
  {
    UpdateResponses(m, update, env, id, AnswerTo(target));
    MergeEdges(m, update, env, id, target);
    assert Applied(m, update, env).controls[id] == Merged(m, update, env).controls[id];
  }

  /**
   Over any run in which a control stays in the model, the EventCancelled (EventSuperseded)
   responses sent for it are one for each change of its status into Cancelled (Superseded) by a
   mention that asks for a response.
   */
  lemma {:induction false} ResponsesAreStatusEdges(m: ModelState, steps: seq<Step>, id: Mrid, target: EventStatusType)
    requires target == Cancelled || target == Superseded
    requires Stays(m, steps, id)
    ensures id in m.controls
    ensures var prior, mentions := m.controls[id].control.currentStatus, MentionsOver(steps, id);
            && AfterRun(m, steps).controls[id].control.currentStatus == LatestStatus(prior, mentions)
            && CountResponses(RunEvents(m, steps), id, AnswerTo(target)) == Edges(prior, mentions, target)
  {
    if steps != [] {
      var n := |steps| - 1;
      var before, step := AfterRun(m, steps[..n]), steps[n];
      ResponsesAreStatusEdges(m, steps[..n], id, target);
      OneMoreUpdate(m.controls[id].control.currentStatus, MentionsOver(steps[..n], id), before, step, id, target);
      OneMoreStep(m, steps, id);
      CountConcat(RunEvents(m, steps[..n]), UpdateEvents(before, step.update, step.env), id, AnswerTo(target));
    }
  }

  lemma OneMoreStep(m: ModelState, steps: seq<Step>, id: Mrid)
    requires steps != []
    ensures var n := |steps| - 1;
            var before, step := AfterRun(m, steps[..n]), steps[n];
            && AfterRun(m, steps) == Applied(before, step.update, step.env)
            && RunEvents(m, steps) == RunEvents(m, steps[..n]) + UpdateEvents(before, step.update, step.env)
            && MentionsOver(steps, id) == MentionsOver(steps[..n], id) + MentionsIn(step.update, id)
  {
  }

  lemma OneMoreUpdate(
    prior: EventStatusType, mentions: seq<ControlResource>, m: ModelState, step: Step, id: Mrid,
    target: EventStatusType)
    requires target == Cancelled || target == Superseded
    requires id in m.controls && id in Applied(m, step.update, step.env).controls
    requires m.controls[id].control.currentStatus == LatestStatus(prior, mentions)
    ensures var more := mentions + MentionsIn(step.update, id);
            && Applied(m, step.update, step.env).controls[id].control.currentStatus == LatestStatus(prior, more)
            && Edges(prior, mentions, target)
               + CountResponses(UpdateEvents(m, step.update, step.env), id, AnswerTo(target))
               == Edges(prior, more, target)
  {
    UpdateEdges(m, step.update, step.env, id, target);
    EdgesConcat(prior, mentions, MentionsIn(step.update, id), target);
  }

  // What a received control list is answered.

  function Report(control: ControlResource, status: ResponseStatus): Event
    requires control.replyTo.Some?
  {
    DERControlStatusChanged(control.mrid, status, control.replyTo.value)
  }

  /** The interval contains this second; the end does not belong to it. */
  predicate Runs(control: ScheduledControl, now: Seconds) {
    control.startTime <= now < control.startTime + control.duration
  }

  /**
   All that one received control is answered, to its own address. A new one is acknowledged if it asks for that, and
   reported as started if it is active, already running and asks for reports; a known one is reported if it
   has become cancelled or superseded and asks for reports.
   */
  lemma OneControlAnswered(controls: map<Mrid, ScheduledControl>, incoming: ControlResource, draw: Draw, now: Seconds)
    ensures var (after, events) := SetControl(controls, incoming, draw, now);
            events ==
            if incoming.mrid in controls then
              if controls[incoming.mrid].control.currentStatus == incoming.currentStatus
                 || !incoming.AsksToReport() then []
              else if incoming.currentStatus == Cancelled then [Report(incoming, EventCancelled)]
              else if incoming.currentStatus == Superseded then [Report(incoming, EventSuperseded)]
              else []
            else
              (if incoming.AsksToAcknowledge() then [Report(incoming, EventReceived)] else [])
              + (if && incoming.currentStatus == Active && Runs(after[incoming.mrid], now)
                    && incoming.AsksToReport() then [Report(incoming, EventStarted)] else [])
  {
  }

  /** A control new to the model is acknowledged, and reported as started, for its first mention in a list only. */
  lemma {:induction false} ArrivalAnsweredOnce(controls: map<Mrid, ScheduledControl>, incoming: seq<ControlResource>,
                                               env: Env, id: Mrid)
    ensures var (after, events) := SetControls(controls, incoming, env);
            && (id in controls || Mentions(incoming, id) == [] ==>
                  CountResponses(events, id, EventReceived) == CountResponses(events, id, EventStarted) == 0)
            && (id !in controls && Mentions(incoming, id) != [] ==>
                  var first := Mentions(incoming, id)[0];
                  && id in after
                  && CountResponses(events, id, EventReceived) == (if first.AsksToAcknowledge() then 1 else 0)
                  && CountResponses(events, id, EventStarted)
                     == if first.currentStatus == Active && Runs(after[id], env.now) && first.AsksToReport() then 1
                        else 0)
  {
    if incoming != [] {
      var n := |incoming| - 1;
      ArrivalAnsweredOnce(controls, incoming[..n], env, id);
      var (before, events) := SetControls(controls, incoming[..n], env);
      var (after, more) := SetControl(before, incoming[n], env.draw(n), env.now);
      assert SetControls(controls, incoming, env) == (after, events + more);
      CountConcat(events, more, id, EventReceived);
      CountConcat(events, more, id, EventStarted);
      NotYetMentioned(controls, incoming[..n], env, id);
      OneArrivalCounts(before, incoming[n], env.draw(n), env.now, id);
    }
  }

  lemma {:induction false} NotYetMentioned(controls: map<Mrid, ScheduledControl>, incoming: seq<ControlResource>,
                                           env: Env, id: Mrid)
    ensures id in SetControls(controls, incoming, env).0 <==> id in controls || Mentions(incoming, id) != []
  {
    if incoming != [] {
      var n := |incoming| - 1;
      NotYetMentioned(controls, incoming[..n], env, id);
      var before := SetControls(controls, incoming[..n], env).0;
      assert SetControls(controls, incoming, env).0 == SetControl(before, incoming[n], env.draw(n), env.now).0;
    }
  }

  lemma OneArrivalCounts(controls: map<Mrid, ScheduledControl>, incoming: ControlResource, draw: Draw, now: Seconds,
                         id: Mrid)
    ensures var (after, events) := SetControl(controls, incoming, draw, now);
            var arrives := incoming.mrid == id && id !in controls;
            && CountResponses(events, id, EventReceived) == (if arrives && incoming.AsksToAcknowledge() then 1 else 0)
            && CountResponses(events, id, EventStarted)
               == (if && arrives && incoming.currentStatus == Active && Runs(after[id], now)
                      && incoming.AsksToReport() then 1 else 0)
            && (id in controls ==> id in after && SameInterval(after[id], controls[id]))
  {
    OneControlAnswered(controls, incoming, draw, now);
    var after := SetControl(controls, incoming, draw, now).0;
    if incoming.mrid !in controls {
      var received := if incoming.AsksToAcknowledge() then [Report(incoming, EventReceived)] else [];
      var started := if && incoming.currentStatus == Active && Runs(after[incoming.mrid], now)
                        && incoming.AsksToReport() then [Report(incoming, EventStarted)] else [];
      CountConcat(received, started, id, EventReceived);
      CountConcat(received, started, id, EventStarted);
    }
  }
}
