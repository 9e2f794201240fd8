/**
 The polls set up with the server, kept only from the scheduler's link events, and their agreement
 with the links of the scheduler's model.
 */
module PollTable {
  import opened Wrappers
  import opened ResourceTypes
  import opened HrefOrder
  import opened ResourceGraph
  import opened SweepCorrectness
  import opened LinkEvents
  import opened ModelUpdates
  import opened ModelRuns

  /** An established poll: the kind of resource it was started for, and its current rate. */
  datatype Poll = Poll(kind: ResourceKind, rate: nat)

  type Polls = map<Href, Poll>

  /** Items of lists are not polled on their own; the poll of their list brings them. */
  predicate Pollable(kind: ResourceKind) {
    match kind
    case EndDevice => false
    case FunctionSetAssignments => false
    case DERProgram => false
    case DERControl => false
    case DERCurve => false
    case _ => true
  }

  function Subscribed(polls: Polls, href: Href, kind: ResourceKind, pollRate: Option<nat>, defaultRate: nat): Polls {
    var rate := pollRate.UnwrapOr(defaultRate);
    if href in polls then polls[href := polls[href].(rate := rate)]
    else if Pollable(kind) then polls[href := Poll(kind, rate)]
    else polls
  }

  function Dispatched(polls: Polls, event: Event, defaultRate: nat): Polls {
    match event
    case LinkAddedOrUpdated(href, kind, pollRate) => Subscribed(polls, href, kind, pollRate, defaultRate)
    case LinkRemoved(href, _) => polls - {href}
    case _ => polls
  }

  function AllDispatched(polls: Polls, events: seq<Event>, defaultRate: nat): Polls {
    if events == [] then polls else
    var n := |events| - 1;
    Dispatched(AllDispatched(polls, events[..n], defaultRate), events[n], defaultRate)
  }

  class Connection {
    var polls: Polls
    const defaultRate: nat

    constructor (defaultRate: nat)
      ensures polls == map[] && this.defaultRate == defaultRate
    {
      this.polls, this.defaultRate := map[], defaultRate;
    }

    method Subscribe(href: Href, kind: ResourceKind, pollRate: Option<nat>)
      modifies this
      ensures polls == Subscribed(old(polls), href, kind, pollRate, defaultRate)
    {
      var rate := pollRate.UnwrapOr(defaultRate);
      if href in polls {
        if polls[href].rate != rate {
          polls := polls[href := polls[href].(rate := rate)];
        }
        return;
      }
      if Pollable(kind) {
        polls := polls[href := Poll(kind, rate)];
      }
    }

    method Unsubscribe(href: Href)
      modifies this
      ensures polls == old(polls) - {href}
    {
      if href in polls {
        polls := polls - {href};
      }
    }

    /** Handles the events of the scheduler in the order in which they were announced. */
    method Dispatch(events: seq<Event>)
      modifies this
      ensures polls == AllDispatched(old(polls), events, defaultRate)
    {
      for i := 0 to |events|
        invariant polls == AllDispatched(old(polls), events[..i], defaultRate)
      {
        assert events[..i + 1][..i] == events[..i];
        match events[i]
        case LinkAddedOrUpdated(href, kind, pollRate) => Subscribe(href, kind, pollRate);
        case LinkRemoved(href, _) => Unsubscribe(href);
        case _ =>
      }
      assert events[..|events|] == events;
    }
  }

  /** The polls that a set of links calls for. */
  function Expected(links: ResourceLinks, defaultRate: nat): Polls {
    map h | h in links && Pollable(links[h].kind) :: Poll(links[h].kind, links[h].pollRate.UnwrapOr(defaultRate))
  }

  predicate SameAt(a: Polls, b: Polls, h: Href) {
    (h in a <==> h in b) && (h in a ==> a[h] == b[h])
  }

  lemma {:induction false} DispatchedConcat(polls: Polls, a: seq<Event>, b: seq<Event>, defaultRate: nat)
    ensures AllDispatched(polls, a + b, defaultRate)
         == AllDispatched(AllDispatched(polls, a, defaultRate), b, defaultRate)
    decreases |b|
  {
    if b == [] {
      assert a + b == a;
    } else {
      var n := |b| - 1;
      assert (a + b)[..|a| + n] == a + b[..n];
      DispatchedConcat(polls, a, b[..n], defaultRate);
    }
  }

  lemma DispatchedFirst(polls: Polls, events: seq<Event>, defaultRate: nat)
    requires events != []
    ensures AllDispatched(polls, events, defaultRate)
         == AllDispatched(Dispatched(polls, events[0], defaultRate), events[1..], defaultRate)
  {
    assert events == [events[0]] + events[1..];
    DispatchedConcat(polls, [events[0]], events[1..], defaultRate);
    assert [events[0]][..0] == [];
    assert AllDispatched(polls, [events[0]], defaultRate) == Dispatched(polls, events[0], defaultRate);
  }

  lemma {:induction false} DispatchRemovals(polls: Polls, prior: ResourceLinks, hrefs: seq<Href>, defaultRate: nat)
    requires forall h :: h in hrefs ==> h in prior
    ensures AllDispatched(polls, Removals(prior, hrefs), defaultRate) == map h | h in polls && h !in hrefs :: polls[h]
  {
    if hrefs != [] {
      DispatchedFirst(polls, Removals(prior, hrefs), defaultRate);
      assert Removals(prior, hrefs)[1..] == Removals(prior, hrefs[1..]);
      DispatchRemovals(polls - {hrefs[0]}, prior, hrefs[1..], defaultRate);
      assert hrefs == [hrefs[0]] + hrefs[1..];
    }
  }

  /** Announcing a link twice is announcing it once, so each entry depends on its own announcement only. */
  lemma {:induction false} DispatchAdditions(polls: Polls, post: ResourceLinks, hrefs: seq<Href>, defaultRate: nat,
                                             h: Href)
    requires forall h :: h in hrefs ==> h in post
    ensures var after := AllDispatched(polls, Additions(post, hrefs), defaultRate);
            var wanted := if h in hrefs then Subscribed(polls, h, post[h].kind, post[h].pollRate, defaultRate)
                          else polls;
            SameAt(after, wanted, h)
    decreases |hrefs|
  {
    if hrefs != [] {
      var first := hrefs[0];
      DispatchedFirst(polls, Additions(post, hrefs), defaultRate);
      assert Additions(post, hrefs)[1..] == Additions(post, hrefs[1..]);
      DispatchAdditions(Subscribed(polls, first, post[first].kind, post[first].pollRate, defaultRate), post,
                        hrefs[1..], defaultRate, h);
      assert hrefs == [first] + hrefs[1..];
    }
  }

  /** A polled href is announced with another kind. */
  predicate ConflictAt(links: ResourceLinks, prior: ResourceLinks, post: ResourceLinks, h: Href) {
    h in ChangedHrefs(prior, post) && h in links && Pollable(links[h].kind) && links[h].kind != post[h].kind
  }

  lemma PollFollowsDiff(polls: Polls, links: ResourceLinks, prior: ResourceLinks, post: ResourceLinks,
                        defaultRate: nat, h: Href)
    requires polls == Expected(links, defaultRate)
    ensures var diff := LinkEventsBetween(prior, post);
            SameAt(AllDispatched(polls, diff, defaultRate), Expected(Replay(diff, links), defaultRate), h)
            <==> !ConflictAt(links, prior, post, h)
  {
    var removed, changed := InOrder(RemovedHrefs(prior, post)), InOrder(ChangedHrefs(prior, post));
    ReplayDiff(prior, post, links);
    DispatchedConcat(polls, Removals(prior, removed), Additions(post, changed), defaultRate);
    DispatchRemovals(polls, prior, removed, defaultRate);
    DispatchAdditions(AllDispatched(polls, Removals(prior, removed), defaultRate), post, changed, defaultRate, h);
    assert h in ChangedHrefs(prior, post) ==> h !in RemovedHrefs(prior, post);
  }

  /**
   If the polls are those that some links call for, then after a diff is dispatched they are those that
   the replayed links call for, exactly when no polled href was announced with another kind: a poll is
   never restarted, only its rate follows.
   */
  lemma PollsFollowDiff(polls: Polls, links: ResourceLinks, prior: ResourceLinks, post: ResourceLinks, defaultRate: nat)
    requires polls == Expected(links, defaultRate)
    ensures var diff := LinkEventsBetween(prior, post);
            AllDispatched(polls, diff, defaultRate) == Expected(Replay(diff, links), defaultRate)
            <==> !exists h :: ConflictAt(links, prior, post, h)
  {
    var diff := LinkEventsBetween(prior, post);
    var after, expected := AllDispatched(polls, diff, defaultRate), Expected(Replay(diff, links), defaultRate);
    forall h ensures SameAt(after, expected, h) <==> !ConflictAt(links, prior, post, h) {
      PollFollowsDiff(polls, links, prior, post, defaultRate, h);
    }
    SameEverywhere(after, expected);
  }

  lemma SameEverywhere(a: Polls, b: Polls)
    ensures a == b <==> forall h :: SameAt(a, b, h)
  {
    if forall h :: SameAt(a, b, h) {
      forall h ensures (h in a <==> h in b) && (h in a ==> a[h] == b[h]) {
        assert SameAt(a, b, h);
      }
    }
  }

  // Whole runs.

  /** What happens between the scheduler and the server connection. */
  datatype Happening = Updated(step: Step) | Refreshed | ConnectionReset

  function ModelAfter(m: ModelState, happenings: seq<Happening>): ModelState {
    if happenings == [] then m else
    var before := ModelAfter(m, happenings[..|happenings| - 1]);
    match happenings[|happenings| - 1]
    case Updated(step) => Applied(before, step.update, step.env)
    case _ => before
  }

  /** A refresh announces every link again; a reset of the connection leaves the polls alone. */
  function EventsOf(m: ModelState, happening: Happening): seq<Event> {
    match happening
    case Updated(step) => UpdateEvents(m, step.update, step.env)
    case Refreshed => RefreshEvents(m)
    case ConnectionReset => []
  }

  function AllEvents(m: ModelState, happenings: seq<Happening>): seq<Event> {
    if happenings == [] then [] else
    var n := |happenings| - 1;
    AllEvents(m, happenings[..n]) + EventsOf(ModelAfter(m, happenings[..n]), happenings[n])
  }

  ghost predicate HappeningsHaveHrefs(happenings: seq<Happening>) {
    forall i :: 0 <= i < |happenings| && happenings[i].Updated? ==> UpdateHasHrefs(happenings[i].step.update)
  }

  /** No update of the run gives a polled href another kind. */
  ghost predicate KindsStay(m: ModelState, happenings: seq<Happening>) {
    happenings == [] ||
    var n := |happenings| - 1;
    var before := ModelAfter(m, happenings[..n]);
    && KindsStay(m, happenings[..n])
    && (happenings[n].Updated? ==>
          var links, later := Links(before), Links(Merged(before, happenings[n].step.update, happenings[n].step.env));
          !exists h :: ConflictAt(links, links, later, h))
  }

  /** Responses and other announcements do not concern the polls. */
  lemma {:induction false} OtherEventsDispatched(polls: Polls, events: seq<Event>, defaultRate: nat)
    requires NoLinkEvents(events)
    ensures AllDispatched(polls, events, defaultRate) == polls
    decreases |events|
  {
    if events != [] {
      OtherEventsDispatched(polls, events[..|events| - 1], defaultRate);
    }
  }

  lemma SameConflicts(links: ResourceLinks, table: ResourceLinks, prior: ResourceLinks, post: ResourceLinks, h: Href)
    requires SameButMupRate(table, links)
    ensures ConflictAt(table, prior, post, h) == ConflictAt(links, prior, post, h)
  {
  }

  /** No update since the last refresh drops the MirrorUsagePointList while its link still shows its rate. */
  ghost predicate RateKept(m: ModelState, happenings: seq<Happening>) {
    happenings == [] ||
    var n := |happenings| - 1;
    match happenings[n]
    case Refreshed => true
    case ConnectionReset => RateKept(m, happenings[..n])
    case Updated(step) =>
      RateKept(m, happenings[..n]) && MupRateSurvives(Merged(ModelAfter(m, happenings[..n]), step.update, step.env))
  }

  /**
   Through any interleaving of updates, refreshes and resets, from any model and the polls that its links call
   for, the polls stay exactly those that the announced links call for. These are the links of the current
   model but for the one rate, and that one too if it was right at first and is kept.
   */
  lemma {:induction false} PollsFollowTheModel(m: ModelState, happenings: seq<Happening>, table: ResourceLinks,
                                               polls: Polls, defaultRate: nat)
    requires AllHrefs(m) && HappeningsHaveHrefs(happenings) && KindsStay(m, happenings)
    requires SameButMupRate(table, Links(m)) && polls == Expected(table, defaultRate)
    ensures var after, replayed := ModelAfter(m, happenings), Replay(AllEvents(m, happenings), table);
            && AllHrefs(after)
            && SameButMupRate(replayed, Links(after))
            && (table == Links(m) && RateKept(m, happenings) ==> replayed == Links(after))
            && AllDispatched(polls, AllEvents(m, happenings), defaultRate) == Expected(replayed, defaultRate)
    decreases |happenings|
  {
    if happenings != [] {
      var n := |happenings| - 1;
      var before, earlier := ModelAfter(m, happenings[..n]), AllEvents(m, happenings[..n]);
      PollsFollowTheModel(m, happenings[..n], table, polls, defaultRate);
      var more := EventsOf(before, happenings[n]);
      ReplayConcat(earlier, more, table);
      DispatchedConcat(polls, earlier, more, defaultRate);
      var links, now := Replay(earlier, table), AllDispatched(polls, earlier, defaultRate);
      match happenings[n]
      case Updated(step) =>
        UpdateIsFollowed(before, step.update, step.env, links, now, defaultRate);
        TelescopingStep(before, step.update, step.env, links);
      case Refreshed => RefreshIsFollowed(before, links, now, defaultRate);
      case ConnectionReset =>
    }
  }

  /** A restart: with a stored model but no polls, the first refresh sets up exactly the polls the model calls for. */
  lemma RefreshSetsUpPolls(m: ModelState, defaultRate: nat)
    ensures AllDispatched(map[], RefreshEvents(m), defaultRate) == Expected(Links(m), defaultRate)
  {
    var none: ResourceLinks := map[];
    ReplayTelescopes(none, Links(m), none);
    PollsFollowDiff(map[], none, none, Links(m), defaultRate);
  }

  /**
   From then on the polls are those of the model: the same hrefs always, the same rates while the
   one rate is kept.
   */
  lemma PollsAfterRestart(m: ModelState, happenings: seq<Happening>, defaultRate: nat)
    requires AllHrefs(m) && HappeningsHaveHrefs(happenings) && KindsStay(m, happenings)
    ensures var after := ModelAfter(m, happenings);
            var polls := AllDispatched(map[], RefreshEvents(m) + AllEvents(m, happenings), defaultRate);
            && polls.Keys == Expected(Links(after), defaultRate).Keys
            && (RateKept(m, happenings) ==> polls == Expected(Links(after), defaultRate))
  {
    RefreshSetsUpPolls(m, defaultRate);
    DispatchedConcat(map[], RefreshEvents(m), AllEvents(m, happenings), defaultRate);
    PollsFollowTheModel(m, happenings, Links(m), Expected(Links(m), defaultRate), defaultRate);
  }

  lemma UpdateIsFollowed(m: ModelState, update: Update, env: Env, links: ResourceLinks, polls: Polls, defaultRate: nat)
    requires AllHrefs(m) && UpdateHasHrefs(update) && SameButMupRate(links, Links(m))
             && polls == Expected(links, defaultRate)
    requires !exists h :: ConflictAt(Links(m), Links(m), Links(Merged(m, update, env)), h)
    ensures AllHrefs(Applied(m, update, env))
    ensures SameButMupRate(Replay(UpdateEvents(m, update, env), links), Links(Applied(m, update, env)))
    ensures AllDispatched(polls, UpdateEvents(m, update, env), defaultRate)
         == Expected(Replay(UpdateEvents(m, update, env), links), defaultRate)
  {
    TelescopingStep(m, update, env, links);
    ReplayUpdate(m, update, env, links);
    var prior, post := Links(m), Links(Merged(m, update, env));
    var diff := LinkEventsBetween(prior, post);
    forall h ensures !ConflictAt(links, prior, post, h) {
      SameConflicts(prior, links, prior, post, h);
    }
    PollsFollowDiff(polls, links, prior, post, defaultRate);
    DispatchedConcat(polls, diff, ControlEvents(m, update, env), defaultRate);
    UpdateControlEventsAreResponses(m, update, env);
    OtherEventsDispatched(AllDispatched(polls, diff, defaultRate), ControlEvents(m, update, env), defaultRate);
  }

  lemma RefreshIsFollowed(m: ModelState, links: ResourceLinks, polls: Polls, defaultRate: nat)
    requires SameButMupRate(links, Links(m)) && polls == Expected(links, defaultRate)
    ensures Replay(RefreshEvents(m), links) == Links(m)
    ensures AllDispatched(polls, RefreshEvents(m), defaultRate)
         == Expected(Replay(RefreshEvents(m), links), defaultRate)
  {
    RefreshReplayed(links, Links(m));
    PollsFollowDiff(polls, links, map[], Links(m), defaultRate);
  }

  lemma RefreshReplayed(table: ResourceLinks, links: ResourceLinks)
    requires SameButMupRate(table, links)
    ensures Replay(LinkEventsBetween(map[], links), table) == links
    ensures !exists h :: ConflictAt(table, map[], links, h)
  {
    RefreshRepairs(table, links);
  }

  /** An href that turns from one polled kind to another keeps the poll of its old kind. */
  lemma ChangedKindKeepsOldPoll()
    ensures var prior: ResourceLinks, post: ResourceLinks := map["/a" := ResourceLink(DERList, None)],
                                                             map["/a" := ResourceLink(DERCurveList, None)];
            && AllDispatched(Expected(prior, 300), LinkEventsBetween(prior, post), 300) != Expected(post, 300)
            && ConflictAt(prior, prior, post, "/a")
  {
    var prior: ResourceLinks, post: ResourceLinks := map["/a" := ResourceLink(DERList, None)],
                                                     map["/a" := ResourceLink(DERCurveList, None)];
    PollsFollowDiff(Expected(prior, 300), prior, prior, post, 300);
    ReplayTelescopes(prior, post, prior);
    assert ConflictAt(prior, prior, post, "/a");
  }
}
