/** The adapter's part of a cycle: auto scaling groups, and the instances outside of them
    that are registered one by one (aws/adapter.go). */
module Instances {
  import opened Text
  import opened Stacks
  import opened LoadBalancers
  import opened Certificates
  import opened TargetGroups
  import opened AutoScaling

  datatype InstanceDetails = InstanceDetails(running: bool, inAutoScalingGroup: bool)

  type Details = map<string, InstanceDetails>

  /** The instances that are managed one by one, and those still to be deregistered. */
  datatype Tracker = Tracker(single: Details, obsolete: seq<string>)

  function Single(single: Details, ec2: Details): Details {
    map id | id in single.Keys + ec2.Keys && id in ec2 && (id in single || !ec2[id].inAutoScalingGroup) ::
      if ec2[id].inAutoScalingGroup then single[id] else ec2[id]
  }

  // The steps.

  /** All instances have been listed, or could not be. */
  ghost predicate Lists(t: Tracker, t': Tracker, ec2: Option<Details>) {
    match ec2
    case None => t' == t
    case Some(details) =>
      && t'.single == Single(t.single, details)
      && t.obsolete <= t'.obsolete
      && Elements(t'.obsolete[|t.obsolete|..]) == t.single.Keys - details.Keys
  }

  ghost predicate InNone(targets: Targets, arns: set<string>, ids: set<string>) {
    forall arn :: arn in targets && arn in arns ==> targets[arn] !! ids
  }

  ghost predicate InAll(targets: Targets, arns: set<string>, ids: set<string>) {
    forall arn :: arn in targets && arn in arns ==> ids <= targets[arn]
  }

  /** The obsolete instances, if there are any, have been deregistered from these groups,
      whose targets are now the given ones; or that has failed and they stay obsolete. */
  ghost predicate Deregisters(t: Tracker, t': Tracker, arns: set<string>, targets: Targets, ok: bool) {
    && t' == (if ok then t.(obsolete := []) else t)
    && (ok && t.obsolete != [] ==> arns <= targets.Keys && InNone(targets, arns, Elements(t.obsolete)))
  }

  /** Only these groups change; they gain and lose no targets but the given ones. */
  ghost predicate OnlyMoves(before: Targets, after: Targets, arns: set<string>, gained: set<string>, lost: set<string>) {
    && after.Keys == before.Keys
    && forall arn :: arn in before ==>
         if arn in arns then before[arn] - lost <= after[arn] <= before[arn] + gained else after[arn] == before[arn]
  }

  datatype Event = Listing(ec2: Option<Details>) | Deregistration(arns: set<string>, targets: Targets, ok: bool)

  ghost predicate Happens(t: Tracker, t': Tracker, event: Event) {
    match event
    case Listing(ec2) => Lists(t, t', ec2)
    case Deregistration(arns, targets, ok) => Deregisters(t, t', arns, targets, ok)
  }

  datatype History = History(trackers: seq<Tracker>, events: seq<Event>) {
    ghost predicate Valid() {
      |trackers| == |events| + 1 && forall i :: 0 <= i < |events| ==> Happens(trackers[i], trackers[i + 1], events[i])
    }

    /** In a cycle between i and j all deregistrations succeeded: the instance was then a
        target of none of the groups handled in that cycle. */
    ghost predicate DeregisteredBetween(id: string, i: nat, j: nat)
      requires i <= j <= |events|
    {
      exists k :: i <= k < j && DeregisteredAt(id, k)
    }

    ghost predicate DeregisteredAt(id: string, k: nat)
      requires k < |events|
    {
      && events[k].Deregistration? && events[k].ok
      && events[k].arns <= events[k].targets.Keys && forall arn :: arn in events[k].arns ==> id !in events[k].targets[arn]
    }
  }

  /** No tracked instance is forgotten: whatever fails, an instance that was once managed is
      still managed, or is still to be deregistered, or has since been removed from every
      target group handled in a cycle whose deregistration fully succeeded. */
  lemma {:induction false} NoInstanceIsForgotten(h: History, id: string, i: nat, j: nat)
    requires h.Valid() && i <= j <= |h.events| && id in h.trackers[i].single
    ensures id in h.trackers[j].single || id in h.trackers[j].obsolete || h.DeregisteredBetween(id, i, j)
  {
    if i < j {
      NoInstanceIsForgotten(h, id, i, j - 1);
      var t, t' := h.trackers[j - 1], h.trackers[j];
      assert Happens(t, t', h.events[j - 1]);
      if id in t.single && id !in t'.single {
        assert id in Elements(t'.obsolete[|t.obsolete|..]);
      }
      if id in t.obsolete && id !in t'.obsolete {
        assert id in Elements(t.obsolete);
        assert h.DeregisteredAt(id, j - 1);
      }
    }
  }

  /** A listing makes every listed instance outside of auto scaling groups a managed one, with
      the details listed. A managed one that has joined a group stays, with its old details;
      one that is no longer listed becomes obsolete. No other instance becomes managed. */
  lemma StandaloneInstancesAreManaged(t: Tracker, t': Tracker, ec2: Details, id: string)
    requires Lists(t, t', Some(ec2))
    ensures id in ec2 && !ec2[id].inAutoScalingGroup ==> id in t'.single && t'.single[id] == ec2[id]
    ensures id in ec2 && ec2[id].inAutoScalingGroup ==>
      (id in t'.single <==> id in t.single) && (id in t.single ==> t'.single[id] == t.single[id])
    ensures id !in ec2 ==> id !in t'.single
    ensures id in t'.obsolete <==> id in t.obsolete || (id in t.single && id !in ec2)
  {
    var n := |t.obsolete|;
    assert t'.obsolete == t'.obsolete[..n] + t'.obsolete[n..];
    assert id in t'.obsolete[n..] <==> id in Elements(t'.obsolete[n..]);
  }

  /** The listing of this event shows the instance outside of groups, with these details. */
  ghost predicate SeenStandalone(h: History, k: nat, id: string, details: InstanceDetails)
    requires k < |h.events|
  {
    && h.events[k].Listing? && h.events[k].ec2.Some? && id in h.events[k].ec2.value
    && h.events[k].ec2.value[id] == details && !details.inAutoScalingGroup
  }

  /** Only instances that some listing has shown outside of groups are ever managed, with
      the details that such a listing gave. */
  lemma {:induction false} ManagedInstancesWereStandalone(h: History, id: string, j: nat)
    requires h.Valid() && j <= |h.events| && id in h.trackers[j].single
    ensures || (id in h.trackers[0].single && h.trackers[j].single[id] == h.trackers[0].single[id])
            || exists k :: 0 <= k < j && SeenStandalone(h, k, id, h.trackers[j].single[id])
  {
    if j > 0 {
      var t, t', event := h.trackers[j - 1], h.trackers[j], h.events[j - 1];
      assert Happens(t, t', event);
      if event.Listing? && event.ec2.Some? {
        StandaloneInstancesAreManaged(t, t', event.ec2.value, id);
      }
      if SeenStandalone(h, j - 1, id, t'.single[id]) {
      } else {
        ManagedInstancesWereStandalone(h, id, j - 1);
      }
    }
  }

  function Running(single: Details): set<string> {
    set id | id in single && single[id].running
  }

  /** Each auto scaling group is brought up to date with the groups wanted for it, unless
      it is one of those that failed, which only come closer. */
  ghost predicate AllUpdated(
    existing: map<string, TargetGroup>, before: Attachments, after: Attachments, asgs: set<string>, wanted: set<string>,
    ownerTags: map<string, string>, failed: set<string>)
  {
    forall asg :: asg in asgs && asg in before ==>
      asg in after && Updated(existing, before[asg], after[asg], wanted, ownerTags, asg !in failed)
  }

  ghost predicate OthersKept(before: Attachments, after: Attachments, asgs: set<string>) {
    after.Keys == before.Keys && forall asg :: asg in before && asg !in asgs ==> after[asg] == before[asg]
  }

  /** The groups for which some call fails. */
  ghost function Failing(
    existing: map<string, TargetGroup>, faults: set<Fault>, attachments: Attachments, asgs: set<string>, wanted: set<string>,
    ownerTags: map<string, string>): set<string>
  {
    set asg | asg in asgs && !Succeeds(existing, faults, attachments, asg, wanted, ownerTags)
  }

  method UpdateAll(svc: Groups, asgs: set<string>, targetGroupARNs: seq<string>, ownerTags: map<string, string>)
    returns (failed: set<string>)
    modifies svc`attachments
    ensures OthersKept(old(svc.attachments), svc.attachments, asgs)
    ensures failed == Failing(svc.existing, svc.faults, old(svc.attachments), asgs, Elements(targetGroupARNs), ownerTags)
    ensures AllUpdated(svc.existing, old(svc.attachments), svc.attachments, asgs, Elements(targetGroupARNs), ownerTags, failed)
  {
    failed := {};
    var remaining := asgs;
    while remaining != {}
      invariant remaining <= asgs
      invariant failed ==
        Failing(svc.existing, svc.faults, old(svc.attachments), asgs - remaining, Elements(targetGroupARNs), ownerTags)
      invariant OthersKept(old(svc.attachments), svc.attachments, asgs - remaining)
      invariant AllUpdated(
        svc.existing, old(svc.attachments), svc.attachments, asgs - remaining, Elements(targetGroupARNs), ownerTags, failed)
    {
      hide Updated, Succeeds;
      var asg :| asg in remaining;
      ghost var done, between, before := asgs - remaining, svc.attachments, failed;
      assert asg !in done && asgs - (remaining - {asg}) == done + {asg};
      var ok := UpdateTargetGroupsForAutoScalingGroup(svc, targetGroupARNs, asg, ownerTags);
      if !ok {
        failed := failed + {asg};
      }
      OneMoreUpdated(svc.existing, svc.faults, old(svc.attachments), between, svc.attachments, done, asg,
                     Elements(targetGroupARNs), ownerTags, before, failed);
      remaining := remaining - {asg};
    }
    assert asgs - {} == asgs;
  }

  lemma OneMoreUpdated(
    existing: map<string, TargetGroup>, faults: set<Fault>, start: Attachments, before: Attachments, after: Attachments,
    asgs: set<string>, asg: string, wanted: set<string>, ownerTags: map<string, string>, failed: set<string>, failed': set<string>)
    requires asg !in asgs && OthersKept(start, before, asgs) && failed == Failing(existing, faults, start, asgs, wanted, ownerTags)
    requires AllUpdated(existing, start, before, asgs, wanted, ownerTags, failed) && OnlyChanges(before, after, asg)
    requires asg in after ==> Updated(existing, before[asg], after[asg], wanted, ownerTags, asg !in failed')
    requires failed' == failed + if Succeeds(existing, faults, before, asg, wanted, ownerTags) then {} else {asg}
    ensures OthersKept(start, after, asgs + {asg})
    ensures failed' == Failing(existing, faults, start, asgs + {asg}, wanted, ownerTags)
    ensures AllUpdated(existing, start, after, asgs + {asg}, wanted, ownerTags, failed')
  {
    assert asg in start ==> start[asg] == before[asg];
    assert Succeeds(existing, faults, start, asg, wanted, ownerTags) <==> Succeeds(existing, faults, before, asg, wanted, ownerTags) by {
      hide Works, Unwanted;
    }
    hide Updated, Succeeds;
  }

  /** The targeted groups get the given target groups, the other owned ones get none. */
  method UpdateTargetedAndOthers(
    svc: Groups, targetedASGs: map<string, AutoScalingGroup>, ownedASGs: map<string, AutoScalingGroup>,
    targetGroupARNs: seq<string>, ownerTags: map<string, string>)
    returns (failed: set<string>)
    modifies svc`attachments
    ensures OthersKept(old(svc.attachments), svc.attachments, targetedASGs.Keys + ownedASGs.Keys)
    ensures failed ==
      Failing(svc.existing, svc.faults, old(svc.attachments), targetedASGs.Keys, Elements(targetGroupARNs), ownerTags)
      + Failing(svc.existing, svc.faults, old(svc.attachments), ownedASGs.Keys - targetedASGs.Keys, {}, ownerTags)
    ensures AllUpdated(
      svc.existing, old(svc.attachments), svc.attachments, targetedASGs.Keys, Elements(targetGroupARNs), ownerTags, failed)
    ensures AllUpdated(
      svc.existing, old(svc.attachments), svc.attachments, ownedASGs.Keys - targetedASGs.Keys, {}, ownerTags, failed)
  {
    hide Updated, Works, Reconciled, Careful;
    ghost var before := svc.attachments;
    var failedTargeted := UpdateAll(svc, targetedASGs.Keys, targetGroupARNs, ownerTags);
    ghost var between := svc.attachments;
    var nonTargeted := NonTargetedASGs(ownedASGs, targetedASGs);
    var failedOthers := UpdateAll(svc, nonTargeted.Keys, [], ownerTags);
    failed := failedTargeted + failedOthers;
    assert Elements<string>([]) == {};
    assert nonTargeted.Keys == ownedASGs.Keys - targetedASGs.Keys;
    FailingTheSame(svc.existing, svc.faults, before, between, nonTargeted.Keys, {}, ownerTags);
  }

  lemma FailingTheSame(
    existing: map<string, TargetGroup>, faults: set<Fault>, a: Attachments, b: Attachments, asgs: set<string>, wanted: set<string>,
    ownerTags: map<string, string>)
    requires a.Keys == b.Keys && forall asg :: asg in asgs && asg in a ==> a[asg] == b[asg]
    ensures Failing(existing, faults, a, asgs, wanted, ownerTags) == Failing(existing, faults, b, asgs, wanted, ownerTags)
  {
    hide Works, Unwanted;
  }

  class Adapter {
    var ec2Details: Details
    var singleInstances: Details
    var obsoleteInstances: seq<string>
    var targetedASGs: map<string, AutoScalingGroup>
    var ownedASGs: map<string, AutoScalingGroup>

    constructor ()
      ensures View() == Tracker(map[], []) && targetedASGs == ownedASGs == map[]
    {
      ec2Details, singleInstances, obsoleteInstances, targetedASGs, ownedASGs := map[], map[], [], map[], map[];
    }

    function View(): Tracker
      reads this
    {
      Tracker(singleInstances, obsoleteInstances)
    }

    /** The two listings may each fail; the second one is only tried after the first. */
    method UpdateAutoScalingGroupsAndInstances(
      ec2: Option<Details>, asgs: Option<seq<AutoScalingGroup>>, asgFilters: map<string, seq<string>>, ownedTag: map<string, string>)
      returns (ok: bool)
      modifies this
      ensures ok <==> ec2.Some? && asgs.Some?
      ensures Lists(old(View()), View(), ec2)
      ensures ec2Details == if ec2.Some? then ec2.value else map[]
      ensures ok ==> targetedASGs.Keys == set asg | asg in asgs.value && IsTargeted(asg, asgFilters) :: asg.name
      ensures ok ==> ownedASGs.Keys == set asg | asg in asgs.value && IsOwned(asg, ownedTag) :: asg.name
      ensures !ok ==> targetedASGs == old(targetedASGs) && ownedASGs == old(ownedASGs)
    {
      if ec2.None? {
        ec2Details := map[];
        return false;
      }
      ec2Details := ec2.value;
      UpdateSingleInstances();
      if asgs.None? {
        return false;
      }
      targetedASGs, ownedASGs := GetOwnedAndTargetedAutoScalingGroups(asgs.value, asgFilters, ownedTag);
      return true;
    }

    method UpdateSingleInstances()
      modifies this`singleInstances, this`obsoleteInstances
      ensures Lists(old(View()), View(), Some(ec2Details))
    {
      KeepExistingInstances();
      AddInstancesOutsideGroups();
    }

    method KeepExistingInstances()
      modifies this`singleInstances, this`obsoleteInstances
      ensures singleInstances == map id | id in old(singleInstances) && id in ec2Details :: old(singleInstances)[id]
      ensures old(obsoleteInstances) <= obsoleteInstances
      ensures Elements(obsoleteInstances[|old(obsoleteInstances)|..]) == old(singleInstances).Keys - ec2Details.Keys
    {
      ghost var n := |obsoleteInstances|;
      var newSingleInstances: Details := map[];
      var remaining := singleInstances.Keys;
      while remaining != {}
        invariant remaining <= singleInstances.Keys && singleInstances == old(singleInstances)
        invariant newSingleInstances == map id | id in singleInstances.Keys - remaining && id in ec2Details :: singleInstances[id]
        invariant old(obsoleteInstances) <= obsoleteInstances
        invariant Elements(obsoleteInstances[n..]) == singleInstances.Keys - remaining - ec2Details.Keys
      {
        var id :| id in remaining;
        if id !in ec2Details {
          Grow(obsoleteInstances[n..], id);
          assert (obsoleteInstances + [id])[n..] == obsoleteInstances[n..] + [id];
          obsoleteInstances := obsoleteInstances + [id];
        } else {
          newSingleInstances := newSingleInstances[id := singleInstances[id]];
        }
        remaining := remaining - {id};
      }
      singleInstances := newSingleInstances;
    }

    method AddInstancesOutsideGroups()
      modifies this`singleInstances
      ensures singleInstances == old(singleInstances) + map id | id in ec2Details && !ec2Details[id].inAutoScalingGroup :: ec2Details[id]
    {
      var remaining := ec2Details.Keys;
      while remaining != {}
        invariant remaining <= ec2Details.Keys
        invariant singleInstances == old(singleInstances) +
          map id | id in ec2Details.Keys - remaining && !ec2Details[id].inAutoScalingGroup :: ec2Details[id]
      {
        var id :| id in remaining;
        if !ec2Details[id].inAutoScalingGroup {
          singleInstances := singleInstances[id := ec2Details[id]];
        }
        remaining := remaining - {id};
      }
    }

    method RunningSingleInstances() returns (instances: seq<string>)
      ensures Elements(instances) == Running(singleInstances)
    {
      instances := [];
      var remaining := singleInstances.Keys;
      while remaining != {}
        invariant remaining <= singleInstances.Keys
        invariant Elements(instances) == set id | id in singleInstances.Keys - remaining && singleInstances[id].running
      {
        var id :| id in remaining;
        Grow(instances, id);
        if singleInstances[id].running {
          instances := instances + [id];
        }
        remaining := remaining - {id};
      }
    }

    /** Registers and deregisters instances with the target groups. If all calls succeed the
        running instances are registered with each of them, except obsolete ones, which are
        registered with none. */
    method UpdateInstances(svc: Service, targetGroupARNs: seq<string>) returns (registered: bool, deregistered: bool)
      modifies svc`targets, this`obsoleteInstances
      ensures var arns, keys := Elements(targetGroupARNs), old(svc.targets).Keys;
              && (registered <==> Running(singleInstances) == {} || arns <= keys - svc.faults.register)
              && (deregistered <==> old(obsoleteInstances) == [] || arns <= keys - svc.faults.deregister)
      ensures OnlyMoves(old(svc.targets), svc.targets, Elements(targetGroupARNs), Running(singleInstances),
                        Elements(old(obsoleteInstances)))
      ensures Deregisters(old(View()), View(), Elements(targetGroupARNs), svc.targets, deregistered)
      ensures registered ==>
        InAll(svc.targets, Elements(targetGroupARNs), Running(singleInstances) - Elements(old(obsoleteInstances)))
    {
      registered, deregistered := true, true;
      ghost var done;
      var runningSingleInstances := RunningSingleInstances();
      NoElements(runningSingleInstances);
      if |runningSingleInstances| != 0 {
        registered, done := RegisterTargetsOnTargetGroups(svc, targetGroupARNs, runningSingleInstances);
        ServedAll(targetGroupARNs, done, svc.targets.Keys - svc.faults.register);
      }
      if |obsoleteInstances| != 0 {
        deregistered, done := DeregisterTargetsOnTargetGroups(svc, targetGroupARNs, obsoleteInstances);
        ServedAll(targetGroupARNs, done, svc.targets.Keys - svc.faults.deregister);
        if deregistered {
          obsoleteInstances := [];
        }
      }
    }

    /** The target groups of all stacks are split by type. Those with ip targets go to the
        CNI handler; all others, including ones that do not exist, are to be attached to
        the targeted auto scaling groups, and nothing to the other owned ones; and the
        single instances are registered with and deregistered from them. */
    method UpdateTargetGroupsAndAutoScalingGroups(
      groups: Groups, svc: Service, allTargetGroupARNs: seq<string>, ownerTags: map<string, string>, cniEnabled: bool)
      returns (categorized: bool, queued: Option<Option<seq<string>>>, failed: set<string>, registered: bool, deregistered: bool)
      modifies groups`attachments, svc`targets, this`obsoleteInstances
      ensures categorized <==> DescribingGroups !in groups.faults
      ensures !categorized ==>
        groups.attachments == old(groups.attachments) && svc.targets == old(svc.targets) && View() == old(View()) && queued.None?
      ensures var all := Elements(allTargetGroupARNs);
              var ips := GroupsOfType(groups.existing, all, Ip);
              categorized ==>
                && (queued.Some? <==> cniEnabled)
                && (queued.Some? ==> Elements(if queued.value.Some? then queued.value.value else []) == ips)
                && failed == Failing(groups.existing, groups.faults, old(groups.attachments), targetedASGs.Keys, all - ips, ownerTags)
                             + Failing(groups.existing, groups.faults, old(groups.attachments),
                                       ownedASGs.Keys - targetedASGs.Keys, {}, ownerTags)
                && AllUpdated(groups.existing, old(groups.attachments), groups.attachments, targetedASGs.Keys, all - ips, ownerTags, failed)
                && AllUpdated(groups.existing, old(groups.attachments), groups.attachments, ownedASGs.Keys - targetedASGs.Keys, {},
                              ownerTags, failed)
      ensures OthersKept(old(groups.attachments), groups.attachments, targetedASGs.Keys + ownedASGs.Keys)
      ensures var arns := Elements(allTargetGroupARNs) - GroupsOfType(groups.existing, Elements(allTargetGroupARNs), Ip);
              categorized ==>
                && (registered <==> Running(singleInstances) == {} || arns <= old(svc.targets).Keys - svc.faults.register)
                && (deregistered <==> old(obsoleteInstances) == [] || arns <= old(svc.targets).Keys - svc.faults.deregister)
                && OnlyMoves(old(svc.targets), svc.targets, arns, Running(singleInstances), Elements(old(obsoleteInstances)))
                && Deregisters(old(View()), View(), arns, svc.targets, deregistered)
                && (registered ==> InAll(svc.targets, arns, Running(singleInstances) - Elements(old(obsoleteInstances))))
    {
      hide Updated, InNone, InAll, Running, Difference, GroupsOfType, AllUpdated, OthersKept, Failing, Deregisters,
           OnlyMoves;
      queued, failed, registered, deregistered := None, {}, false, false;
      NothingElseChanged(groups.attachments, targetedASGs.Keys + ownedASGs.Keys);
      var targetTypesARNs;
      categorized, targetTypesARNs := CategorizeTargetType(groups, allTargetGroupARNs);
      if !categorized {
        return;
      }
      if cniEnabled {
        queued := Some(if Ip in targetTypesARNs then Some(targetTypesARNs[Ip]) else None);
      }
      assert Elements(OfType(targetTypesARNs, Ip)) == GroupsOfType(groups.existing, Elements(allTargetGroupARNs), Ip);
      DifferenceOfElements(allTargetGroupARNs, OfType(targetTypesARNs, Ip));
      var targetGroupARNs := ComputeDifference(allTargetGroupARNs, OfType(targetTypesARNs, Ip));
      failed := UpdateTargetedAndOthers(groups, targetedASGs, ownedASGs, targetGroupARNs, ownerTags);
      registered, deregistered := UpdateInstances(svc, targetGroupARNs);
    }

    /** What a cycle with certificates does about targets: it lists instances and groups, and if
        that succeeds brings the targets up to date. Every listed instance that runs outside
        of auto scaling groups is then a target of every group handled, if registering them
        succeeds, unless it is still to be deregistered; and every instance that was managed
        and is no longer listed is a target of none, if deregistering succeeds. */
    method RefreshTargets(
      ec2: Option<Details>, asgs: Option<seq<AutoScalingGroup>>, asgFilters: map<string, seq<string>>, ownedTag: map<string, string>,
      groups: Groups, svc: Service, allTargetGroupARNs: seq<string>, ownerTags: map<string, string>, cniEnabled: bool)
      returns (ok: bool, failed: set<string>, registered: bool, deregistered: bool)
      modifies this, groups`attachments, svc`targets
      ensures ok <==> ec2.Some? && asgs.Some? && DescribingGroups !in groups.faults
      ensures !ok ==> svc.targets == old(svc.targets) && groups.attachments == old(groups.attachments)
      ensures var arns := Elements(allTargetGroupARNs) - GroupsOfType(groups.existing, Elements(allTargetGroupARNs), Ip);
              ok ==>
                && OnlyRunningGained(old(svc.targets), svc.targets, arns, ec2.value, singleInstances)
                && (registered ==> StandaloneAreTargets(ec2.value, old(obsoleteInstances), svc.targets, arns))
                && (deregistered ==> InNone(svc.targets, arns, old(singleInstances).Keys - ec2.value.Keys))
                && (arns <= old(svc.targets).Keys - svc.faults.register ==> registered)
                && (arns <= old(svc.targets).Keys - svc.faults.deregister ==> deregistered)
    {
      hide Lists, Deregisters, OnlyMoves, AllUpdated, OthersKept, Failing, InAll, InNone, StandaloneAreTargets, OnlyRunningGained,
           Running, GroupsOfType;
      failed, registered, deregistered := {}, false, false;
      ghost var before := View();
      ok := UpdateAutoScalingGroupsAndInstances(ec2, asgs, asgFilters, ownedTag);
      if !ok {
        return;
      }
      ghost var listed, arns := View(), Elements(allTargetGroupARNs) - GroupsOfType(groups.existing, Elements(allTargetGroupARNs), Ip);
      var queued;
      ok, queued, failed, registered, deregistered :=
        UpdateTargetGroupsAndAutoScalingGroups(groups, svc, allTargetGroupARNs, ownerTags, cniEnabled);
      if ok {
        OnlyRunningRegistered(before, listed, ec2.value, old(svc.targets), svc.targets, arns);
      }
      if ok && registered {
        RegisteredStandalone(before, listed, ec2.value, svc.targets, arns);
      }
      if ok && deregistered {
        DeregisteredUnlisted(before, listed, View(), ec2.value, svc.targets, arns);
      }
    }
  }

  /** The instances that run outside of auto scaling groups are targets of all these groups,
      unless they are still to be deregistered. */
  ghost predicate StandaloneAreTargets(ec2: Details, obsolete: seq<string>, targets: Targets, arns: set<string>) {
    forall arn, id ::
      (arn in arns && arn in targets && id in ec2 && ec2[id].running && !ec2[id].inAutoScalingGroup && id !in obsolete) ==>
        id in targets[arn]
  }

  /** Every new target is one of these groups' and a managed instance that is listed and runs. */
  ghost predicate OnlyRunningGained(before: Targets, after: Targets, arns: set<string>, ec2: Details, single: Details) {
    && after.Keys == before.Keys
    && forall arn, id :: arn in before && id in after[arn] && id !in before[arn] ==>
         arn in arns && id in ec2 && id in single && single[id].running
  }

  lemma OnlyRunningRegistered(t: Tracker, t': Tracker, ec2: Details, before: Targets, after: Targets, arns: set<string>)
    requires Lists(t, t', Some(ec2)) && OnlyMoves(before, after, arns, Running(t'.single), Elements(t'.obsolete))
    ensures OnlyRunningGained(before, after, arns, ec2, t'.single)
  {
    forall arn, id | arn in before && id in after[arn] && id !in before[arn]
      ensures arn in arns && id in ec2 && id in t'.single && t'.single[id].running
    {
      assert id in Running(t'.single);
      StandaloneInstancesAreManaged(t, t', ec2, id);
    }
  }

  lemma RegisteredStandalone(t: Tracker, t': Tracker, ec2: Details, targets: Targets, arns: set<string>)
    requires Lists(t, t', Some(ec2)) && InAll(targets, arns, Running(t'.single) - Elements(t'.obsolete))
    ensures StandaloneAreTargets(ec2, t.obsolete, targets, arns)
  {
    forall arn, id | arn in arns && arn in targets && id in ec2 && ec2[id].running && !ec2[id].inAutoScalingGroup
      && id !in t.obsolete ensures id in targets[arn]
    {
      StandaloneInstancesAreManaged(t, t', ec2, id);
      assert id in Running(t'.single) - Elements(t'.obsolete);
    }
  }

  lemma DeregisteredUnlisted(t: Tracker, t': Tracker, t'': Tracker, ec2: Details, targets: Targets, arns: set<string>)
    requires Lists(t, t', Some(ec2)) && Deregisters(t', t'', arns, targets, true)
    ensures InNone(targets, arns, t.single.Keys - ec2.Keys)
  {
    forall id | id in t.single.Keys - ec2.Keys ensures id in Elements(t'.obsolete) {
      StandaloneInstancesAreManaged(t, t', ec2, id);
    }
  }

  lemma NothingElseChanged(attachments: Attachments, asgs: set<string>)
    ensures OthersKept(attachments, attachments, asgs)
  {
  }

  lemma ServedAll(arns: seq<string>, done: nat, served: set<string>)
    requires ServedUpTo(arns, done, served)
    ensures done == |arns| <==> Elements(arns) <= served
    ensures done == |arns| ==> Elements(arns[..done]) == Elements(arns)
  {
    assert arns[..|arns|] == arns;
    assert done < |arns| ==> arns[done] in Elements(arns);
  }

  /** Whatever fails: no group with ip targets gets attached to an auto scaling group, and
      no existing group that is not the controller's is ever detached. */
  lemma UpdatesAreSafe(
    existing: map<string, TargetGroup>, before: set<string>, after: set<string>, all: set<string>, ownerTags: map<string, string>,
    ok: bool, arn: string)
    requires Updated(existing, before, after, all - GroupsOfType(existing, all, Ip), ownerTags, ok) && arn in existing
    ensures existing[arn].targetType == Ip && arn in after ==> arn in before
    ensures arn in before && arn !in after ==> CarriesTags(existing[arn].tags, ownerTags)
  {
  }
}
