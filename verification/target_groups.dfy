/** Target groups and their targets (aws/elbv2.go, aws/adapter.go). */
module TargetGroups {
  import opened LoadBalancers
  import opened Certificates

  /** The elements of a that are not in b. */
  function Difference(a: seq<string>, b: seq<string>): seq<string> {
    if a == [] then []
    else Difference(a[..|a| - 1], b) + if a[|a| - 1] in b then [] else [a[|a| - 1]]
  }

  lemma {:induction false} DifferenceOfElements(a: seq<string>, b: seq<string>)
    ensures Elements(Difference(a, b)) == Elements(a) - Elements(b)
  {
    if a != [] {
      var front, last := a[..|a| - 1], a[|a| - 1];
      DifferenceOfElements(front, b);
      assert a == front + [last];
      forall x ensures x in Difference(a, b) <==> x in a && x !in b {
        assert x in Difference(front, b) <==> x in Elements(Difference(front, b));
      }
    }
  }

  method ComputeDifference(a: seq<string>, b: seq<string>) returns (diff: seq<string>)
    ensures diff == Difference(a, b)
  {
    var mb: set<string> := {};
    for i := 0 to |b|
      invariant mb == set j | 0 <= j < i :: b[j]
    {
      mb := mb + {b[i]};
    }
    diff := [];
    for i := 0 to |a|
      invariant diff == Difference(a[..i], b)
    {
      assert a[..i + 1][..i] == a[..i];
      if a[i] !in mb {
        diff := diff + [a[i]];
      }
    }
    assert a[..|a|] == a;
  }

  type Targets = map<string, set<string>>

  /** The targets after ids were registered with the given groups. */
  function Registered(targets: Targets, arns: set<string>, ids: set<string>): Targets {
    map arn | arn in targets :: if arn in arns then targets[arn] + ids else targets[arn]
  }

  function Deregistered(targets: Targets, arns: set<string>, ids: set<string>): Targets {
    map arn | arn in targets :: if arn in arns then targets[arn] - ids else targets[arn]
  }

  lemma OneMoreGroup(targets: Targets, arns: set<string>, arn: string, ids: set<string>)
    ensures Registered(Registered(targets, arns, ids), {arn}, ids) == Registered(targets, arns + {arn}, ids)
    ensures Deregistered(Deregistered(targets, arns, ids), {arn}, ids) == Deregistered(targets, arns + {arn}, ids)
  {
    assert forall a :: a in targets ==> targets[a] - ids - ids == targets[a] - ids;
  }

  /** The groups for which a kind of call fails, for whatever reason. */
  datatype Faults = Faults(describe: set<string>, register: set<string>, deregister: set<string>)

  /** The load balancing service. Any call may fail, and then changes nothing; faults, which
      none of the calls changes, decides which ones do. Nothing is known about it, and it
      may be different every time that the controller turns to the service. */
  class Service {
    var targets: Targets
    var faults: Faults

    constructor (initial: Targets, faults: Faults)
      ensures targets == initial && this.faults == faults
    {
      targets, this.faults := initial, faults;
    }

    method DescribeTargetHealth(arn: string) returns (ok: bool, ids: seq<string>)
      ensures ok <==> arn in targets && arn !in faults.describe
      ensures ok ==> Elements(ids) == targets[arn]
    {
      ok, ids := arn in targets && arn !in faults.describe, [];
      if !ok {
        return;
      }
      var remaining := targets[arn];
      while remaining != {}
        invariant remaining <= targets[arn]
        invariant Elements(ids) == targets[arn] - remaining
      {
        var id :| id in remaining;
        assert Elements(ids + [id]) == Elements(ids) + {id};
        ids, remaining := ids + [id], remaining - {id};
      }
    }

    method RegisterTargets(arn: string, ids: seq<string>) returns (ok: bool)
      modifies this`targets
      ensures ok <==> arn in old(targets) && arn !in faults.register
      ensures targets == if ok then Registered(old(targets), {arn}, Elements(ids)) else old(targets)
    {
      ok := arn in targets && arn !in faults.register;
      if ok {
        targets := Registered(targets, {arn}, Elements(ids));
      }
    }

    method DeregisterTargets(arn: string, ids: seq<string>) returns (ok: bool)
      modifies this`targets
      ensures ok <==> arn in old(targets) && arn !in faults.deregister
      ensures targets == if ok then Deregistered(old(targets), {arn}, Elements(ids)) else old(targets)
    {
      ok := arn in targets && arn !in faults.deregister;
      if ok {
        targets := Deregistered(targets, {arn}, Elements(ids));
      }
    }
  }

  /** The first done groups are served, and the next one, if there is any, is not. */
  ghost predicate ServedUpTo(arns: seq<string>, done: nat, served: set<string>) {
    done <= |arns| && Elements(arns[..done]) <= served && (done < |arns| ==> arns[done] !in served)
  }

  /** Registers the instances with one group after the other, up to the first failure. */
  method RegisterTargetsOnTargetGroups(svc: Service, targetGroupARNs: seq<string>, instances: seq<string>)
    returns (ok: bool, ghost done: nat)
    modifies svc`targets
    ensures ServedUpTo(targetGroupARNs, done, old(svc.targets).Keys - svc.faults.register)
    ensures ok <==> done == |targetGroupARNs|
    ensures svc.targets == Registered(old(svc.targets), Elements(targetGroupARNs[..done]), Elements(instances))
  {
    done := 0;
    for i := 0 to |targetGroupARNs|
      invariant done == i && Elements(targetGroupARNs[..i]) <= old(svc.targets).Keys - svc.faults.register
      invariant svc.targets == Registered(old(svc.targets), Elements(targetGroupARNs[..i]), Elements(instances))
    {
      ok := svc.RegisterTargets(targetGroupARNs[i], instances);
      if !ok {
        return;
      }
      done := i + 1;
      OneMoreGroup(old(svc.targets), Elements(targetGroupARNs[..i]), targetGroupARNs[i], Elements(instances));
      assert targetGroupARNs[..i + 1] == targetGroupARNs[..i] + [targetGroupARNs[i]];
      assert Elements(targetGroupARNs[..i + 1]) == Elements(targetGroupARNs[..i]) + {targetGroupARNs[i]};
    }
    ok := true;
  }

  method DeregisterTargetsOnTargetGroups(svc: Service, targetGroupARNs: seq<string>, instances: seq<string>)
    returns (ok: bool, ghost done: nat)
    modifies svc`targets
    ensures ServedUpTo(targetGroupARNs, done, old(svc.targets).Keys - svc.faults.deregister)
    ensures ok <==> done == |targetGroupARNs|
    ensures svc.targets == Deregistered(old(svc.targets), Elements(targetGroupARNs[..done]), Elements(instances))
  {
    done := 0;
    for i := 0 to |targetGroupARNs|
      invariant done == i && Elements(targetGroupARNs[..i]) <= old(svc.targets).Keys - svc.faults.deregister
      invariant svc.targets == Deregistered(old(svc.targets), Elements(targetGroupARNs[..i]), Elements(instances))
    {
      ok := svc.DeregisterTargets(targetGroupARNs[i], instances);
      if !ok {
        return;
      }
      done := i + 1;
      OneMoreGroup(old(svc.targets), Elements(targetGroupARNs[..i]), targetGroupARNs[i], Elements(instances));
      assert targetGroupARNs[..i + 1] == targetGroupARNs[..i] + [targetGroupARNs[i]];
      assert Elements(targetGroupARNs[..i + 1]) == Elements(targetGroupARNs[..i]) + {targetGroupARNs[i]};
    }
    ok := true;
  }

  // Bringing groups to the wanted targets.

  predicate Describable(targets: Targets, faults: Faults, arn: string) {
    arn in targets && arn !in faults.describe
  }

  /** A change that the group needs fails. */
  predicate Refuses(targets: Targets, faults: Faults, arn: string, wanted: set<string>) {
    && Describable(targets, faults, arn)
    && ((arn in faults.register && !(wanted <= targets[arn])) || (arn in faults.deregister && !(targets[arn] <= wanted)))
  }

  /** What the group holds after it was dealt with: missing targets are registered before
      extra ones are deregistered. */
  function SetOn(targets: Targets, faults: Faults, arn: string, wanted: set<string>): set<string>
    requires arn in targets
  {
    if !Describable(targets, faults, arn) then targets[arn]
    else if !Refuses(targets, faults, arn, wanted) then wanted
    else if arn in faults.register && !(wanted <= targets[arn]) then targets[arn]
    else targets[arn] + wanted
  }

  method RegisterMissing(svc: Service, arn: string, endpoints: seq<string>, registered: seq<string>) returns (ok: bool)
    requires arn in svc.targets && svc.targets[arn] == Elements(registered)
    modifies svc`targets
    ensures ok <==> arn !in svc.faults.register || Elements(endpoints) <= Elements(registered)
    ensures svc.targets == if ok then old(svc.targets)[arn := Elements(registered) + Elements(endpoints)] else old(svc.targets)
  {
    ok := true;
    var toRegister := ComputeDifference(endpoints, registered);
    DifferenceOfElements(endpoints, registered);
    NoElements(toRegister);
    assert Elements(registered) + (Elements(endpoints) - Elements(registered)) == Elements(registered) + Elements(endpoints);
    if |toRegister| > 0 {
      ghost var done;
      OneGroup(svc.targets, arn, Elements(toRegister));
      ok, done := RegisterTargetsOnTargetGroups(svc, [arn], toRegister);
    } else {
      assert Elements(registered) + Elements(endpoints) == Elements(registered);
    }
  }

  method DeregisterExtra(svc: Service, arn: string, endpoints: seq<string>, registered: seq<string>) returns (ok: bool)
    requires arn in svc.targets && svc.targets[arn] == Elements(registered) + Elements(endpoints)
    modifies svc`targets
    ensures ok <==> arn !in svc.faults.deregister || Elements(registered) <= Elements(endpoints)
    ensures svc.targets == if ok then old(svc.targets)[arn := Elements(endpoints)] else old(svc.targets)
  {
    ok := true;
    var toDeregister := ComputeDifference(registered, endpoints);
    DifferenceOfElements(registered, endpoints);
    NoElements(toDeregister);
    ghost var extra := Elements(registered) - Elements(endpoints);
    assert Elements(registered) + Elements(endpoints) - extra == Elements(endpoints);
    if |toDeregister| > 0 {
      ghost var done;
      OneGroup(svc.targets, arn, Elements(toDeregister));
      ok, done := DeregisterTargetsOnTargetGroups(svc, [arn], toDeregister);
    } else {
      assert Elements(registered) + Elements(endpoints) - {} == Elements(registered) + Elements(endpoints);
    }
  }

  /** Brings one group to the wanted targets, unless it cannot be described. */
  method SetTargets(svc: Service, arn: string, endpoints: seq<string>) returns (ok: bool)
    modifies svc`targets
    ensures ok <==> !Refuses(old(svc.targets), svc.faults, arn, Elements(endpoints))
    ensures svc.targets ==
            if arn in old(svc.targets)
            then old(svc.targets)[arn := SetOn(old(svc.targets), svc.faults, arn, Elements(endpoints))]
            else old(svc.targets)
  {
    ok := true;
    var described, registered := svc.DescribeTargetHealth(arn);
    if !described {
      return;
    }
    ok := RegisterMissing(svc, arn, endpoints, registered);
    if !ok {
      return;
    }
    ok := DeregisterExtra(svc, arn, endpoints, registered);
  }

  lemma OneGroup(targets: Targets, arn: string, ids: set<string>)
    requires arn in targets
    ensures Elements([arn][..0]) == {} && Elements([arn][..1]) == {arn}
    ensures Registered(targets, {}, ids) == targets == Deregistered(targets, {}, ids)
    ensures Registered(targets, {arn}, ids) == targets[arn := targets[arn] + ids]
    ensures Deregistered(targets, {arn}, ids) == targets[arn := targets[arn] - ids]
  {
    assert [arn][..1] == [arn] && [arn][..0] == [];
  }

  lemma NoElements(s: seq<string>)
    ensures |s| == 0 <==> Elements(s) == {}
  {
    assert s != [] ==> s[0] in Elements(s);
  }

  /** The effect of setting the targets of the groups one after the other: the round ends
      with the first group that refuses a change. Groups that were passed before and could
      be described hold exactly the wanted targets, and all others are as they were. */
  ghost predicate SetsAll(
    before: Targets, after: Targets, faults: Faults, arns: seq<string>, wanted: set<string>, done: nat)
  {
    && done <= |arns|
    && (forall i :: 0 <= i < done ==> !Refuses(before, faults, arns[i], wanted))
    && (done < |arns| ==> Refuses(before, faults, arns[done], wanted))
    && after.Keys == before.Keys
    && forall arn :: arn in before ==>
         after[arn] == if arn in arns[..done] || (done < |arns| && arn == arns[done]) then SetOn(before, faults, arn, wanted)
                       else before[arn]
  }

  method SetTargetsOnCNITargetGroups(svc: Service, endpoints: seq<string>, cniTargetGroupARNs: seq<string>)
    returns (ok: bool, ghost done: nat)
    modifies svc`targets
    ensures SetsAll(old(svc.targets), svc.targets, svc.faults, cniTargetGroupARNs, Elements(endpoints), done)
    ensures ok <==> done == |cniTargetGroupARNs|
  {
    hide SetOn, Refuses;
    done := 0;
    for i := 0 to |cniTargetGroupARNs|
      invariant done == i
      invariant SetsSome(old(svc.targets), svc.targets, svc.faults, cniTargetGroupARNs[..i], Elements(endpoints))
    {
      var arn := cniTargetGroupARNs[i];
      assert cniTargetGroupARNs[..i + 1] == cniTargetGroupARNs[..i] + [arn];
      SetAgain(old(svc.targets), svc.targets, svc.faults, cniTargetGroupARNs[..i], arn, Elements(endpoints));
      ok := SetTargets(svc, arn, endpoints);
      if !ok {
        return;
      }
      done := i + 1;
    }
    ok := true;
  }

  /** All of these groups have been passed. */
  ghost predicate SetsSome(before: Targets, after: Targets, faults: Faults, arns: seq<string>, wanted: set<string>) {
    && (forall arn :: arn in arns ==> !Refuses(before, faults, arn, wanted))
    && after.Keys == before.Keys
    && forall arn :: arn in before ==> after[arn] == if arn in arns then SetOn(before, faults, arn, wanted) else before[arn]
  }

  /** A group that has been passed does not refuse the second time, and stays as it is. */
  lemma SetAgain(before: Targets, now: Targets, faults: Faults, arns: seq<string>, arn: string, wanted: set<string>)
    requires SetsSome(before, now, faults, arns, wanted)
    ensures Refuses(now, faults, arn, wanted) <==> Refuses(before, faults, arn, wanted)
    ensures arn in before ==> SetOn(now, faults, arn, wanted) == SetOn(before, faults, arn, wanted)
  {
  }

  /** No call that concerns these groups fails. */
  predicate Serves(targets: Targets, faults: Faults, arns: seq<string>) {
    forall arn :: arn in arns ==> arn in targets && arn !in faults.describe + faults.register + faults.deregister
  }

  /** If no call fails, each group ends with exactly the wanted targets; and whatever fails,
      no wanted target is lost, no unwanted one is added, and no other group changes. */
  lemma SetsExactly(before: Targets, after: Targets, faults: Faults, arns: seq<string>, wanted: set<string>, done: nat)
    requires SetsAll(before, after, faults, arns, wanted, done)
    ensures Serves(before, faults, arns) ==>
      done == |arns| && forall arn :: arn in arns ==> arn in after && after[arn] == wanted
    ensures forall arn :: arn in before ==> before[arn] * wanted <= after[arn] <= before[arn] + wanted
    ensures forall arn :: arn in before && arn !in arns ==> after[arn] == before[arn]
    ensures forall arn :: arn in arns[..done] && arn in before && arn !in faults.describe ==> after[arn] == wanted
  {
    if Serves(before, faults, arns) {
      assert arns[..|arns|] == arns;
    }
  }
}
