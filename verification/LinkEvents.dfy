/** The events that announce a change of links, and what replaying them onto a table does. */
module LinkEvents {
  import opened ResourceTypes
  import opened ResourceGraph
  import opened HrefOrder

  function Removals(prior: ResourceLinks, hrefs: seq<Href>): (events: seq<Event>)
    requires forall h :: h in hrefs ==> h in prior
  {
    if hrefs == [] then [] else [LinkRemoved(hrefs[0], prior[hrefs[0]].kind)] + Removals(prior, hrefs[1..])
  }

  function Additions(post: ResourceLinks, hrefs: seq<Href>): (events: seq<Event>)
    requires forall h :: h in hrefs ==> h in post
  {
    if hrefs == [] then [] else
    [LinkAddedOrUpdated(hrefs[0], post[hrefs[0]].kind, post[hrefs[0]].pollRate)] + Additions(post, hrefs[1..])
  }

  function RemovedHrefs(prior: ResourceLinks, post: ResourceLinks): set<Href> {
    set h | h in prior && h !in post
  }

  function ChangedHrefs(prior: ResourceLinks, post: ResourceLinks): set<Href> {
    set h | h in post && (h !in prior || prior[h] != post[h])
  }

  /** Compares links against a prior set: removals first, then additions and changes. */
  function LinkEventsBetween(prior: ResourceLinks, post: ResourceLinks): seq<Event> {
    Removals(prior, InOrder(RemovedHrefs(prior, post))) + Additions(post, InOrder(ChangedHrefs(prior, post)))
  }

  // Replaying.

  function ApplyLinkEvent(table: ResourceLinks, event: Event): ResourceLinks {
    match event
    case LinkAddedOrUpdated(href, kind, pollRate) => table[href := ResourceLink(kind, pollRate)]
    case LinkRemoved(href, _) => table - {href}
    case _ => table
  }

  function Replay(events: seq<Event>, table: ResourceLinks): ResourceLinks {
    if events == [] then table else Replay(events[1..], ApplyLinkEvent(table, events[0]))
  }

  lemma {:induction false} ReplayConcat(a: seq<Event>, b: seq<Event>, table: ResourceLinks)
    ensures Replay(a + b, table) == Replay(b, Replay(a, table))
  {
    if a == [] {
      assert a + b == b;
    } else {
      assert (a + b)[1..] == a[1..] + b;
      ReplayConcat(a[1..], b, ApplyLinkEvent(table, a[0]));
    }
  }

  /** Other announcements do not concern the links. */
  ghost predicate NoLinkEvents(events: seq<Event>) {
    forall i :: 0 <= i < |events| ==> !events[i].LinkAddedOrUpdated? && !events[i].LinkRemoved?
  }

  lemma {:induction false} ReplayIgnoresOtherEvents(events: seq<Event>, table: ResourceLinks)
    requires NoLinkEvents(events)
    ensures Replay(events, table) == table
  {
    if events != [] {
      ReplayIgnoresOtherEvents(events[1..], ApplyLinkEvent(table, events[0]));
    }
  }

  lemma {:induction false} ReplayRemovals(prior: ResourceLinks, hrefs: seq<Href>, table: ResourceLinks)
    requires forall h :: h in hrefs ==> h in prior
    ensures Replay(Removals(prior, hrefs), table) == map h | h in table && h !in hrefs :: table[h]
  {
    if hrefs != [] {
      assert Removals(prior, hrefs)[1..] == Removals(prior, hrefs[1..]);
      ReplayRemovals(prior, hrefs[1..], table - {hrefs[0]});
      assert hrefs == [hrefs[0]] + hrefs[1..];
    }
  }

  function Entries(links: ResourceLinks, hrefs: seq<Href>): ResourceLinks
    requires forall h :: h in hrefs ==> h in links
  {
    map h | h in hrefs :: links[h]
  }

  lemma {:induction false} ReplayAdditions(post: ResourceLinks, hrefs: seq<Href>, table: ResourceLinks)
    requires forall h :: h in hrefs ==> h in post
    ensures Replay(Additions(post, hrefs), table) == table + Entries(post, hrefs)
  {
    if hrefs != [] {
      assert Additions(post, hrefs)[1..] == Additions(post, hrefs[1..]);
      ReplayAdditions(post, hrefs[1..], table[hrefs[0] := post[hrefs[0]]]);
      FirstEntry(post, hrefs, table);
    }
  }

  lemma FirstEntry(post: ResourceLinks, hrefs: seq<Href>, table: ResourceLinks)
    requires hrefs != [] && forall h :: h in hrefs ==> h in post
    ensures table[hrefs[0] := post[hrefs[0]]] + Entries(post, hrefs[1..]) == table + Entries(post, hrefs)
  {
    assert hrefs == [hrefs[0]] + hrefs[1..];
  }

  /** What a diff does to any table, entry by entry. */
  lemma ReplayDiff(prior: ResourceLinks, post: ResourceLinks, table: ResourceLinks)
    ensures var after := Replay(LinkEventsBetween(prior, post), table);
            forall h :: && (h in after
                            <==> h in ChangedHrefs(prior, post) || (h in table && h !in RemovedHrefs(prior, post)))
                        && (h in after ==> after[h] == if h in ChangedHrefs(prior, post) then post[h] else table[h])
  {
    var removed, changed := InOrder(RemovedHrefs(prior, post)), InOrder(ChangedHrefs(prior, post));
    ReplayConcat(Removals(prior, removed), Additions(post, changed), table);
    ReplayRemovals(prior, removed, table);
    ReplayAdditions(post, changed, Replay(Removals(prior, removed), table));
  }

  /** Replaying a diff onto the prior links gives the later links, and a stale rate never spreads. */
  lemma ReplayTelescopes(prior: ResourceLinks, post: ResourceLinks, table: ResourceLinks)
    ensures table == prior ==> Replay(LinkEventsBetween(prior, post), table) == post
    ensures SameButMupRate(table, prior) ==> SameButMupRate(Replay(LinkEventsBetween(prior, post), table), post)
  {
    ReplayDiff(prior, post, table);
    if table == prior {
      ReplayExactly(prior, post);
    }
    if SameButMupRate(table, prior) {
      ReplayKeepsSame(prior, post, table);
    }
  }

  lemma ReplayExactly(prior: ResourceLinks, post: ResourceLinks)
    ensures Replay(LinkEventsBetween(prior, post), prior) == post
  {
    ReplayDiff(prior, post, prior);
    var after := Replay(LinkEventsBetween(prior, post), prior);
    forall h ensures (h in after <==> h in post) && (h in after ==> after[h] == post[h]) {
    }
  }

  lemma ReplayKeepsSame(prior: ResourceLinks, post: ResourceLinks, table: ResourceLinks)
    requires SameButMupRate(table, prior)
    ensures SameButMupRate(Replay(LinkEventsBetween(prior, post), table), post)
  {
    ReplayDiff(prior, post, table);
    var after := Replay(LinkEventsBetween(prior, post), table);
    forall h ensures h in after <==> h in post {
      assert h in table <==> h in prior;
    }
    assert after.Keys == post.Keys;
  }

  /** Announcing everything again on top of an up-to-date table changes nothing. */
  lemma RefreshChangesNothing(links: ResourceLinks)
    ensures Replay(LinkEventsBetween(map[], links), links) == links
    ensures LinkEventsBetween(links, links) == []
  {
    ReplayDiff(map[], links, links);
    assert RemovedHrefs(links, links) == {} && ChangedHrefs(links, links) == {};
  }

  /** Announcing everything brings any table without superfluous entries up to date. */
  lemma RefreshRepairs(table: ResourceLinks, links: ResourceLinks)
    requires table.Keys <= links.Keys
    ensures Replay(LinkEventsBetween(map[], links), table) == links
  {
    ReplayDiff(map[], links, table);
    SameEntries(Replay(LinkEventsBetween(map[], links), table), map[], links, table);
  }

  lemma SameEntries(after: ResourceLinks, prior: ResourceLinks, post: ResourceLinks, table: ResourceLinks)
    requires forall h ::
               && (h in after <==> h in ChangedHrefs(prior, post) || (h in table && h !in RemovedHrefs(prior, post)))
               && (h in after ==> after[h] == if h in ChangedHrefs(prior, post) then post[h] else table[h])
    requires table.Keys <= post.Keys && prior.Keys !! post.Keys
    ensures after == post
  {
    assert after.Keys == post.Keys;
  }
}
