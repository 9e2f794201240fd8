/** Which resources are polled, told from the levels of the model. */
module PolledLinks {
  import opened ResourceTypes
  import opened ResourceGraph
  import opened ResourceLevels
  import opened LinkClaims
  import opened Reachability
  import opened PollTable

  /** Everything but the items of lists, which come with their lists. */
  const POLLED := {Time, EndDeviceList, MirrorUsagePointList, DERList, FunctionSetAssignmentsList, DERProgramList,
                   DefaultDERControl, DERControlList, DERCurveList}

  /**
   An href that is on one level only is polled exactly if that level is not one of items: as a resource of its
   kind, at the rate of the list the level names, or the default rate.
   */
  lemma LevelIsPolled(m: ModelState, h: Href, kind: ResourceKind, defaultRate: nat)
    requires OnLevel(m, h, kind) && Alone(m, h, kind)
    ensures var polls := Expected(Links(m), defaultRate);
            && (h in polls <==> kind in POLLED)
            && (h in polls ==> exists rate :: Claimed(m, Claim(h, ResourceLink(kind, rate)))
                                              && polls[h] == Poll(kind, rate.UnwrapOr(defaultRate)))
  {
    KindOfLevel(m, h, kind);
    ExpectedAt(Links(m), h, defaultRate);
    var rate := Links(m)[h].pollRate;
    assert Links(m)[h] == ResourceLink(kind, rate);
    assert Claimed(m, Claim(h, ResourceLink(kind, rate)));
  }

  lemma ExpectedAt(links: ResourceLinks, h: Href, defaultRate: nat)
    requires h in links
    ensures var polls := Expected(links, defaultRate);
            && (h in polls <==> links[h].kind in POLLED)
            && (h in polls ==> polls[h] == Poll(links[h].kind, links[h].pollRate.UnwrapOr(defaultRate)))
  {
  }

  ghost predicate IsPolled(m: ModelState, h: Href, kind: ResourceKind, defaultRate: nat) {
    h in Expected(Links(m), defaultRate) && Expected(Links(m), defaultRate)[h].kind == kind
  }

  /** So each control list, curve list, default control, program list, FSA list and DER list is polled. */
  lemma ListsArePolled(m: ModelState, h: Href, kind: ResourceKind, defaultRate: nat)
    requires match kind
             case DERControlList => h in ControlListHrefs(m)
             case DERCurveList => h in CurveListHrefs(m)
             case DefaultDERControl => h in DefaultControlHrefs(m)
             case DERProgramList => h in ProgramListHrefs(m)
             case FunctionSetAssignmentsList => h in FsaListHrefs(m)
             case DERList => h in DerListHrefs(m)
             case _ => false
    requires Alone(m, h, kind)
    ensures IsPolled(m, h, kind, defaultRate)
  {
    LevelIsPolled(m, h, kind, defaultRate);
  }
}
