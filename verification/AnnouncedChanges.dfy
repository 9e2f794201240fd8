/** Which changes an update announces, in which order, and which responses follow them. */
module AnnouncedChanges {
  import opened HrefOrder
  import opened LinkEvents
  import opened ModelRuns
  import opened ModelUpdates
  import opened ResourceGraph
  import opened ResourceTypes
  import opened UpdateEffects

  /** The event removes a link of `prior`, with its kind, or brings one of `post` that is new or other than before. */
  predicate IsChange(prior: ResourceLinks, post: ResourceLinks, event: Event) {
    match event
    case LinkRemoved(href, kind) => href in prior && href !in post && prior[href].kind == kind
    case LinkAddedOrUpdated(href, kind, pollRate) =>
      && href in post && post[href] == ResourceLink(kind, pollRate)
      && (href !in prior || prior[href] != post[href])
    case _ => false
  }

  /** Removals come first, and both removals and additions in ascending order of href. */
  ghost predicate ComesBefore(a: Event, b: Event) {
    match (a, b)
    case (LinkRemoved(x, _), LinkRemoved(y, _)) => IsBefore(x, y)
    case (LinkRemoved(_, _), LinkAddedOrUpdated(_, _, _)) => true
    case (LinkAddedOrUpdated(x, _, _), LinkAddedOrUpdated(y, _, _)) => IsBefore(x, y)
    case _ => false
  }

  ghost predicate InSequence(events: seq<Event>) {
    forall i, j :: 0 <= i < j < |events| ==> ComesBefore(events[i], events[j])
  }

  lemma {:induction false} RemovalsAre(prior: ResourceLinks, hrefs: seq<Href>, e: Event)
    requires forall h :: h in hrefs ==> h in prior
    ensures e in Removals(prior, hrefs) <==> e.LinkRemoved? && e.href in hrefs && prior[e.href].kind == e.kind
  {
    if hrefs != [] {
      RemovalsAre(prior, hrefs[1..], e);
      assert forall h :: h in hrefs <==> h == hrefs[0] || h in hrefs[1..];
    }
  }

  lemma {:induction false} AdditionsAre(post: ResourceLinks, hrefs: seq<Href>, e: Event)
    requires forall h :: h in hrefs ==> h in post
    ensures e in Additions(post, hrefs)
       <==> e.LinkAddedOrUpdated? && e.href in hrefs && post[e.href] == ResourceLink(e.kind, e.pollRate)
  {
    if hrefs != [] {
      AdditionsAre(post, hrefs[1..], e);
      assert forall h :: h in hrefs <==> h == hrefs[0] || h in hrefs[1..];
    }
  }

  lemma {:induction false} RemovalsInSequence(prior: ResourceLinks, hrefs: seq<Href>)
    requires (forall h :: h in hrefs ==> h in prior) && Ascending(hrefs)
    ensures InSequence(Removals(prior, hrefs))
  {
    if hrefs != [] {
      var rest := Removals(prior, hrefs[1..]);
      RemovalsInSequence(prior, hrefs[1..]);
      forall j | 0 <= j < |rest| ensures ComesBefore(Removals(prior, hrefs)[0], rest[j]) {
        RemovalsAre(prior, hrefs[1..], rest[j]);
        AtMostIsBefore(hrefs[0], rest[j].href);
      }
    }
  }

  lemma {:induction false} AdditionsInSequence(post: ResourceLinks, hrefs: seq<Href>)
    requires (forall h :: h in hrefs ==> h in post) && Ascending(hrefs)
    ensures InSequence(Additions(post, hrefs))
  {
    if hrefs != [] {
      var rest := Additions(post, hrefs[1..]);
      AdditionsInSequence(post, hrefs[1..]);
      forall j | 0 <= j < |rest| ensures ComesBefore(Additions(post, hrefs)[0], rest[j]) {
        AdditionsAre(post, hrefs[1..], rest[j]);
        AtMostIsBefore(hrefs[0], rest[j].href);
      }
    }
  }

  lemma OneAfterTheOther(a: seq<Event>, b: seq<Event>)
    requires InSequence(a) && InSequence(b)
    requires forall x, y :: x in a && y in b ==> ComesBefore(x, y)
    ensures InSequence(a + b)
  {
    forall i, j | 0 <= i < j < |a + b| ensures ComesBefore((a + b)[i], (a + b)[j]) {
      if i < |a| <= j {
        assert a[i] in a && b[j - |a|] in b;
      }
    }
  }

  /** Comparing links announces exactly the changes between them, each once and in sequence. */
  lemma ChangesAreAnnounced(prior: ResourceLinks, post: ResourceLinks)
    ensures var events := LinkEventsBetween(prior, post);
            InSequence(events) && forall e :: e in events <==> IsChange(prior, post, e)
  {
    var removed, changed := InOrder(RemovedHrefs(prior, post)), InOrder(ChangedHrefs(prior, post));
    RemovalsInSequence(prior, removed);
    AdditionsInSequence(post, changed);
    forall e ensures e in Removals(prior, removed) <==> e.LinkRemoved? && IsChange(prior, post, e) {
      RemovalsAre(prior, removed, e);
    }
    forall e ensures e in Additions(post, changed) <==> e.LinkAddedOrUpdated? && IsChange(prior, post, e) {
      AdditionsAre(post, changed, e);
    }
    OneAfterTheOther(Removals(prior, removed), Additions(post, changed));
  }

  /**
   An update first announces how the links of the model with the received resource put in differ from those before,
   and after all of that only responses.
   */
  lemma UpdateAnnounces(m: ModelState, update: Update, env: Env) returns (whole: ModelState, links: seq<Event>)
    ensures Received(m, update, env, whole)
    ensures InSequence(links) && forall e :: e in links <==> IsChange(Links(m), Links(whole), e)
    ensures links <= UpdateEvents(m, update, env)
    ensures forall e :: e in UpdateEvents(m, update, env)[|links|..] ==> e.DERControlStatusChanged?
  {
    whole, links := Merged(m, update, env), LinkEventsBetween(Links(m), Links(Merged(m, update, env)));
    MergeReceives(m, update, env);
    ChangesAreAnnounced(Links(m), Links(whole));
    UpdateControlEventsAreResponses(m, update, env);
    assert UpdateEvents(m, update, env)[|links|..] == ControlEvents(m, update, env);
  }
}
