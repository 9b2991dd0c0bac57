/** Attaching target groups to auto scaling groups (aws/asg.go, aws/adapter.go). */
module AutoScaling {
  import opened Text
  import opened Stacks
  import opened LoadBalancers
  import opened Certificates
  import opened TargetGroups

  datatype TargetType = Instance | Ip | Lambda | Alb

  datatype TargetGroup = TargetGroup(targetType: TargetType, tags: seq<KeyValue>)

  datatype TagDescription = TagDescription(resourceArn: string, tags: seq<KeyValue>)

  type Attachments = map<string, set<string>>

  const ATTACH_LIMIT := 10
  const DESCRIBE_TAGS_LIMIT := 20

  // Tags.

  ghost predicate CarriesTags(tags: seq<KeyValue>, expectedTags: map<string, string>) {
    forall key :: key in expectedTags ==> KeyValue(key, expectedTags[key]) in tags
  }

  method HasTags(tags: seq<KeyValue>, expectedTags: map<string, string>) returns (r: bool)
    ensures r <==> CarriesTags(tags, expectedTags)
  {
    var remaining := expectedTags.Keys;
    while remaining != {}
      invariant remaining <= expectedTags.Keys
      invariant forall key :: key in expectedTags.Keys - remaining ==> KeyValue(key, expectedTags[key]) in tags
    {
      var key :| key in remaining;
      var found := false;
      for i := 0 to |tags|
        invariant !found && KeyValue(key, expectedTags[key]) !in tags[..i]
      {
        if tags[i].key == key && tags[i].value == expectedTags[key] {
          found := true;
          break;
        }
      }
      if !found {
        return false;
      }
      remaining := remaining - {key};
    }
    return true;
  }

  method TgHasTags(descs: seq<TagDescription>, arn: string, tags: map<string, string>) returns (r: bool)
    ensures r <==> exists desc :: desc in descs && desc.resourceArn == arn && CarriesTags(desc.tags, tags)
  {
    for i := 0 to |descs|
      invariant forall desc :: desc in descs[..i] ==> !(desc.resourceArn == arn && CarriesTags(desc.tags, tags))
    {
      if descs[i].resourceArn == arn {
        var has := HasTags(descs[i].tags, tags);
        if has {
          return true;
        }
      }
    }
    return false;
  }

  /** A filter without values accepts any value of its tag. */
  ghost predicate PassesFilters(filterTags: map<string, seq<string>>, asgTags: map<string, string>) {
    forall key :: key in filterTags ==> key in asgTags && PassesFilter(filterTags[key], asgTags[key])
  }

  predicate PassesFilter(filterValues: seq<string>, value: string) {
    filterValues == [] || value in filterValues
  }

  method CountMatches(matches: map<string, int>, key: string, value: string, filterValues: seq<string>)
    returns (counted: map<string, int>)
    ensures counted.Keys == matches.Keys + if value in filterValues then {key} else {}
  {
    counted := matches;
    for i := 0 to |filterValues|
      invariant counted.Keys == matches.Keys + if value in filterValues[..i] then {key} else {}
    {
      if value == filterValues[i] {
        counted := counted[key := (if key in counted then counted[key] else 0) + 1];
      }
    }
    assert filterValues[..|filterValues|] == filterValues;
  }

  /** Counts the filters that match; the count is complete exactly if all of them do. */
  method TestFilterTags(filterTags: map<string, seq<string>>, asgTags: map<string, string>) returns (r: bool)
    ensures r <==> PassesFilters(filterTags, asgTags)
  {
    var matches: map<string, int> := map[];
    var remaining := filterTags.Keys;
    while remaining != {}
      invariant remaining <= filterTags.Keys
      invariant matches.Keys <= filterTags.Keys - remaining
      invariant forall key :: key in filterTags.Keys - remaining ==>
        key in asgTags && (key in matches.Keys <==> PassesFilter(filterTags[key], asgTags[key]))
    {
      var key :| key in remaining;
      if key !in asgTags {
        return false;
      }
      if filterTags[key] == [] {
        matches := matches[key := 1];
      } else {
        matches := CountMatches(matches, key, asgTags[key], filterTags[key]);
      }
      remaining := remaining - {key};
    }
    r := |filterTags| == |matches|;
    SameSizeSubset(matches.Keys, filterTags.Keys);
    assert |matches| == |matches.Keys| && |filterTags| == |filterTags.Keys|;
  }

  lemma SameSizeSubset(a: set<string>, b: set<string>)
    requires a <= b
    ensures |a| == |b| <==> a == b
  {
    assert b == a + (b - a);
  }

  datatype AutoScalingGroup = AutoScalingGroup(name: string, tags: seq<KeyValue>)

  ghost predicate IsOwned(asg: AutoScalingGroup, ownedTags: map<string, string>) {
    CarriesTags(asg.tags, ownedTags)
  }

  ghost predicate IsTargeted(asg: AutoScalingGroup, filterTags: map<string, seq<string>>) {
    PassesFilters(filterTags, ToMap(asg.tags))
  }

  method GetOwnedAndTargetedAutoScalingGroups(
    groups: seq<AutoScalingGroup>, filterTags: map<string, seq<string>>, ownedTags: map<string, string>)
    returns (targetedASGs: map<string, AutoScalingGroup>, ownedASGs: map<string, AutoScalingGroup>)
    ensures targetedASGs.Keys == set asg | asg in groups && IsTargeted(asg, filterTags) :: asg.name
    ensures ownedASGs.Keys == set asg | asg in groups && IsOwned(asg, ownedTags) :: asg.name
    ensures forall name :: name in targetedASGs ==> targetedASGs[name] in groups && targetedASGs[name].name == name
    ensures forall name :: name in ownedASGs ==> ownedASGs[name] in groups && ownedASGs[name].name == name
  {
    targetedASGs, ownedASGs := map[], map[];
    for i := 0 to |groups|
      invariant targetedASGs.Keys == set asg | asg in groups[..i] && IsTargeted(asg, filterTags) :: asg.name
      invariant ownedASGs.Keys == set asg | asg in groups[..i] && IsOwned(asg, ownedTags) :: asg.name
      invariant forall name :: name in targetedASGs ==> targetedASGs[name] in groups && targetedASGs[name].name == name
      invariant forall name :: name in ownedASGs ==> ownedASGs[name] in groups && ownedASGs[name].name == name
    {
      hide PassesFilters, CarriesTags;
      var asg := groups[i];
      assert groups[..i + 1] == groups[..i] + [asg];
      var tags := ConvertTags(asg.tags);
      var owned := HasTags(asg.tags, ownedTags);
      if owned {
        ownedASGs := ownedASGs[asg.name := asg];
      }
      var targeted := TestFilterTags(filterTags, tags);
      if targeted {
        targetedASGs := targetedASGs[asg.name := asg];
      }
    }
    assert groups[..|groups|] == groups;
  }

  method NonTargetedASGs(ownedASGs: map<string, AutoScalingGroup>, targetedASGs: map<string, AutoScalingGroup>)
    returns (r: map<string, AutoScalingGroup>)
    ensures r == ownedASGs - targetedASGs.Keys
  {
    r := map[];
    var remaining := ownedASGs.Keys;
    while remaining != {}
      invariant remaining <= ownedASGs.Keys
      invariant r == ownedASGs - targetedASGs.Keys - remaining
    {
      var name :| name in remaining;
      if name !in targetedASGs {
        r := r[name := ownedASGs[name]];
      }
      remaining := remaining - {name};
    }
  }

  // The services and their limits.

  /** A call that fails, for whatever reason. */
  datatype Fault =
    | DescribingGroups
    | Describing(asg: string)
    | DescribingTags(arn: string)
    | Attaching(asg: string, arn: string)
    | Detaching(asg: string, arn: string)

  /** Any call may fail, and then changes nothing; faults, which none of the calls changes,
      decides which ones do, and nothing is known about it. A call for several groups fails
      if it would for one of them. The preconditions on the number of groups are the limits
      of the services. */
  class Groups {
    const existing: map<string, TargetGroup>
    var attachments: Attachments
    var faults: set<Fault>

    constructor (existing: map<string, TargetGroup>, attachments: Attachments, faults: set<Fault>)
      ensures this.existing == existing && this.attachments == attachments && this.faults == faults
    {
      this.existing, this.attachments, this.faults := existing, attachments, faults;
    }

    method DescribeLoadBalancerTargetGroups(asg: string) returns (ok: bool, arns: seq<string>)
      ensures ok <==> asg in attachments && Describing(asg) !in faults
      ensures ok ==> Elements(arns) == attachments[asg]
    {
      ok, arns := asg in attachments && Describing(asg) !in faults, [];
      if ok {
        arns := Listed(attachments[asg]);
      }
    }

    method DescribeTargetGroups() returns (ok: bool, arns: set<string>)
      ensures ok <==> DescribingGroups !in faults
      ensures ok ==> arns == existing.Keys
    {
      ok, arns := DescribingGroups !in faults, existing.Keys;
    }

    method DescribeTags(arns: seq<string>) returns (ok: bool, descs: seq<TagDescription>)
      requires 0 < |arns| <= DESCRIBE_TAGS_LIMIT
      ensures ok <==> forall arn :: arn in arns ==> arn in existing && DescribingTags(arn) !in faults
      ensures ok ==> Describes(existing, arns, descs)
    {
      ok, descs := forall arn :: arn in arns ==> arn in existing && DescribingTags(arn) !in faults, [];
      if ok {
        for i := 0 to |arns|
          invariant Describes(existing, arns[..i], descs)
        {
          descs := descs + [TagDescription(arns[i], existing[arns[i]].tags)];
          assert arns[..i + 1][..i] == arns[..i];
        }
        assert arns[..|arns|] == arns;
      }
    }

    method AttachLoadBalancerTargetGroups(asg: string, arns: seq<string>) returns (ok: bool)
      requires 0 < |arns| <= ATTACH_LIMIT
      modifies this`attachments
      ensures ok <==> asg in old(attachments) && forall arn :: arn in arns ==> Attaching(asg, arn) !in faults
      ensures attachments ==
              if ok then old(attachments)[asg := old(attachments)[asg] + Elements(arns)] else old(attachments)
    {
      ok := asg in attachments && forall arn :: arn in arns ==> Attaching(asg, arn) !in faults;
      if ok {
        attachments := attachments[asg := attachments[asg] + Elements(arns)];
      }
    }

    method DetachLoadBalancerTargetGroups(asg: string, arns: seq<string>) returns (ok: bool)
      requires 0 < |arns| <= ATTACH_LIMIT
      modifies this`attachments
      ensures ok <==> asg in old(attachments) && forall arn :: arn in arns ==> Detaching(asg, arn) !in faults
      ensures attachments ==
              if ok then old(attachments)[asg := old(attachments)[asg] - Elements(arns)] else old(attachments)
    {
      ok := asg in attachments && forall arn :: arn in arns ==> Detaching(asg, arn) !in faults;
      if ok {
        attachments := attachments[asg := attachments[asg] - Elements(arns)];
      }
    }
  }

  method Listed(s: set<string>) returns (r: seq<string>)
    ensures Elements(r) == s
  {
    r := [];
    var remaining := s;
    while remaining != {}
      invariant remaining <= s && Elements(r) == s - remaining
    {
      var x :| x in remaining;
      assert Elements(r + [x]) == Elements(r) + {x};
      r, remaining := r + [x], remaining - {x};
    }
  }

  /** The i-th description is that of the i-th group. */
  ghost predicate Describes(existing: map<string, TargetGroup>, arns: seq<string>, descs: seq<TagDescription>) {
    && |descs| == |arns|
    && forall i :: 0 <= i < |arns| ==> arns[i] in existing && descs[i] == TagDescription(arns[i], existing[arns[i]].tags)
  }

  datatype Action = Attach | Detach | DescribeTags

  function Limit(action: Action): (limit: nat)
    ensures limit > 0
  {
    if action == DescribeTags then DESCRIBE_TAGS_LIMIT else ATTACH_LIMIT
  }

  /** The action works on each of the groups. */
  ghost predicate Works(
    existing: map<string, TargetGroup>, faults: set<Fault>, asg: string, action: Action, arns: set<string>)
  {
    forall arn :: arn in arns ==>
      match action
      case Attach => Attaching(asg, arn) !in faults
      case Detach => Detaching(asg, arn) !in faults
      case DescribeTags => arn in existing && DescribingTags(arn) !in faults
  }

  function Applied(attachments: Attachments, asg: string, action: Action, arns: set<string>): Attachments
    requires asg in attachments
  {
    match action
    case Attach => attachments[asg := attachments[asg] + arns]
    case Detach => attachments[asg := attachments[asg] - arns]
    case DescribeTags => attachments
  }

  method Process(svc: Groups, asg: string, action: Action, chunk: seq<string>) returns (ok: bool, descs: seq<TagDescription>)
    requires 0 < |chunk| <= Limit(action) && asg in svc.attachments
    modifies svc`attachments
    ensures ok <==> Works(svc.existing, svc.faults, asg, action, Elements(chunk))
    ensures svc.attachments ==
            if ok then Applied(old(svc.attachments), asg, action, Elements(chunk)) else old(svc.attachments)
    ensures ok && action == DescribeTags ==> Describes(svc.existing, chunk, descs)
  {
    descs := [];
    assert forall arn :: arn in chunk <==> arn in Elements(chunk);
    match action
    case Attach => ok := svc.AttachLoadBalancerTargetGroups(asg, chunk);
    case Detach => ok := svc.DetachLoadBalancerTargetGroups(asg, chunk);
    case DescribeTags => ok, descs := svc.DescribeTags(chunk);
  }

  /** Applies the action chunk by chunk up to the first failure: the chunks make up the
      list from its beginning, and all of it if nothing fails. */
  method ProcessChunked(svc: Groups, asg: string, action: Action, slice: seq<string>)
    returns (ok: bool, descs: seq<TagDescription>, ghost done: nat)
    requires asg in svc.attachments
    modifies svc`attachments
    ensures ok <==> Works(svc.existing, svc.faults, asg, action, Elements(slice))
    ensures done <= |slice| && (ok ==> done == |slice|)
    ensures svc.attachments == Applied(old(svc.attachments), asg, action, Elements(slice[..done]))
    ensures ok && action == DescribeTags ==> Describes(svc.existing, slice, descs)
  {
    var i := 0;
    descs, done := [], 0;
    AppliedToNone(svc.attachments, asg, action);
    assert slice[..0] == [] && Elements<string>([]) == {};
    while i < |slice|
      invariant i <= |slice| && done == i && asg in svc.attachments
      invariant Works(svc.existing, svc.faults, asg, action, Elements(slice[..i]))
      invariant svc.attachments == Applied(old(svc.attachments), asg, action, Elements(slice[..i]))
      invariant action == DescribeTags ==> Describes(svc.existing, slice[..i], descs)
    {
      var end := i + Limit(action);
      if end > |slice| {
        end := |slice|;
      }
      var chunk := slice[i..end];
      assert slice[..end] == slice[..i] + chunk;
      assert Elements(slice[..end]) == Elements(slice[..i]) + Elements(chunk);
      var more;
      ok, more := Process(svc, asg, action, chunk);
      if !ok {
        assert Elements(chunk) <= Elements(slice);
        return;
      }
      AppliedTwice(old(svc.attachments), asg, action, Elements(slice[..i]), Elements(chunk));
      descs := descs + more;
      i, done := end, end;
    }
    assert slice[..|slice|] == slice;
    ok := true;
  }

  lemma AppliedToNone(attachments: Attachments, asg: string, action: Action)
    requires asg in attachments
    ensures Applied(attachments, asg, action, {}) == attachments
  {
    assert attachments[asg] + {} == attachments[asg] - {} == attachments[asg];
  }

  lemma AppliedTwice(attachments: Attachments, asg: string, action: Action, a: set<string>, b: set<string>)
    requires asg in attachments
    ensures Applied(Applied(attachments, asg, action, a), asg, action, b) == Applied(attachments, asg, action, a + b)
  {
    var before := attachments[asg];
    assert before + a + b == before + (a + b) && before - a - b == before - (a + b);
  }

  // Bringing one auto scaling group up to date.

  /** What is to be detached: groups that no longer exist, and groups of the controller
      that are not wanted. */
  ghost function Unwanted(
    existing: map<string, TargetGroup>, attached: set<string>, wanted: set<string>, ownerTags: map<string, string>): set<string>
  {
    set arn | arn in attached && (arn !in existing || (CarriesTags(existing[arn].tags, ownerTags) && arn !in wanted))
  }

  /** The groups that are attached afterwards if nothing fails. */
  ghost function Reconciled(
    existing: map<string, TargetGroup>, attached: set<string>, wanted: set<string>, ownerTags: map<string, string>): set<string>
  {
    attached - Unwanted(existing, attached, wanted, ownerTags) + wanted * existing.Keys
  }

  /** What holds even if a call fails on the way: existing groups that are wanted or not
      the controller's stay attached, and only existing wanted groups are added. */
  ghost predicate Careful(
    existing: map<string, TargetGroup>, before: set<string>, after: set<string>, wanted: set<string>, ownerTags: map<string, string>)
  {
    before - Unwanted(existing, before, wanted, ownerTags) <= after <= before + wanted * existing.Keys
  }

  method FindDetachable(svc: Groups, attached: seq<string>, targetGroupARNs: seq<string>, asg: string, ownerTags: map<string, string>)
    returns (ok: bool, detachARNs: seq<string>)
    requires asg in svc.attachments
    modifies svc`attachments
    ensures svc.attachments == old(svc.attachments)
    ensures ok <==> Works(svc.existing, svc.faults, asg, DescribeTags, Elements(attached) * svc.existing.Keys)
    ensures ok ==>
      Elements(detachARNs) == Unwanted(svc.existing, Elements(attached), Elements(targetGroupARNs), ownerTags)
  {
    detachARNs := [];
    var validARNs: seq<string> := [];
    for i := 0 to |attached|
      invariant svc.attachments == old(svc.attachments)
      invariant Elements(detachARNs) == Elements(attached[..i]) - svc.existing.Keys
      invariant Elements(validARNs) == Elements(attached[..i]) * svc.existing.Keys
    {
      assert attached[..i + 1] == attached[..i] + [attached[i]];
      Grow(detachARNs, attached[i]);
      Grow(validARNs, attached[i]);
      Grow(attached[..i], attached[i]);
      if attached[i] !in svc.existing {
        detachARNs := detachARNs + [attached[i]];
      } else {
        validARNs := validARNs + [attached[i]];
      }
    }
    assert attached[..|attached|] == attached;
    var descs;
    ghost var done;
    ok, descs, done := ProcessChunked(svc, asg, DescribeTags, validARNs);
    if !ok {
      return;
    }
    ghost var missing := Elements(detachARNs);
    for i := 0 to |validARNs|
      invariant svc.attachments == old(svc.attachments)
      invariant Elements(detachARNs) ==
        missing + set arn | arn in validARNs[..i] && CarriesTags(svc.existing[arn].tags, ownerTags) && arn !in targetGroupARNs
    {
      Grow(detachARNs, validARNs[i]);
      var owned := TgHasTags(descs, validARNs[i], ownerTags);
      assert owned <==> CarriesTags(svc.existing[validARNs[i]].tags, ownerTags) by {
        assert descs[i] in descs;
      }
      if !owned {
        continue;
      }
      if validARNs[i] !in targetGroupARNs {
        detachARNs := detachARNs + [validARNs[i]];
      }
    }
    assert validARNs[..|validARNs|] == validARNs;
    forall arn ensures arn in validARNs <==> arn in attached && arn in svc.existing {
      assert arn in validARNs <==> arn in Elements(validARNs);
    }
    assert Elements(detachARNs) == Unwanted(svc.existing, Elements(attached), Elements(targetGroupARNs), ownerTags);
  }

  lemma Grow(s: seq<string>, x: string)
    ensures Elements(s + [x]) == Elements(s) + {x}
  {
  }

  ghost predicate OnlyChanges(before: Attachments, after: Attachments, asg: string) {
    after.Keys == before.Keys && forall other :: other in before && other != asg ==> after[other] == before[other]
  }

  ghost predicate Updated(
    existing: map<string, TargetGroup>, before: set<string>, after: set<string>, wanted: set<string>,
    ownerTags: map<string, string>, ok: bool)
  {
    Careful(existing, before, after, wanted, ownerTags) && (ok ==> after == Reconciled(existing, before, wanted, ownerTags))
  }

  /** No call that is made for this group fails. */
  ghost predicate Succeeds(
    existing: map<string, TargetGroup>, faults: set<Fault>, attachments: Attachments, asg: string, wanted: set<string>,
    ownerTags: map<string, string>)
  {
    && asg in attachments && Describing(asg) !in faults && DescribingGroups !in faults
    && Works(existing, faults, asg, DescribeTags, attachments[asg] * existing.Keys)
    && Works(existing, faults, asg, Detach, Unwanted(existing, attachments[asg], wanted, ownerTags))
    && Works(existing, faults, asg, Attach, wanted * existing.Keys)
  }

  /** Detaches what is not wanted and attaches what is. */
  method UpdateTargetGroupsForAutoScalingGroup(
    svc: Groups, targetGroupARNs: seq<string>, asg: string, ownerTags: map<string, string>) returns (ok: bool)
    modifies svc`attachments
    ensures OnlyChanges(old(svc.attachments), svc.attachments, asg)
    ensures ok <==> Succeeds(svc.existing, svc.faults, old(svc.attachments), asg, Elements(targetGroupARNs), ownerTags)
    ensures asg in svc.attachments ==>
      Updated(svc.existing, old(svc.attachments)[asg], svc.attachments[asg], Elements(targetGroupARNs), ownerTags, ok)
  {
    var attached;
    ok, attached := svc.DescribeLoadBalancerTargetGroups(asg);
    if !ok {
      return;
    }
    ghost var before, wanted := svc.attachments[asg], Elements(targetGroupARNs);
    ghost var unwanted := Unwanted(svc.existing, before, wanted, ownerTags);
    var allTGs;
    ok, allTGs := svc.DescribeTargetGroups();
    if !ok {
      return;
    }
    if |attached| > 0 {
      ok := DetachUnwanted(svc, attached, targetGroupARNs, asg, ownerTags);
      if !ok {
        return;
      }
    } else {
      assert before == {};
    }
    assert svc.attachments[asg] == before - unwanted;
    ok := AttachExisting(svc, allTGs, targetGroupARNs, asg);
  }

  method DetachUnwanted(
    svc: Groups, attached: seq<string>, targetGroupARNs: seq<string>, asg: string, ownerTags: map<string, string>)
    returns (ok: bool)
    requires asg in svc.attachments && Elements(attached) == svc.attachments[asg]
    modifies svc`attachments
    ensures OnlyChanges(old(svc.attachments), svc.attachments, asg)
    ensures var before := old(svc.attachments)[asg];
            var unwanted := Unwanted(svc.existing, before, Elements(targetGroupARNs), ownerTags);
            && (ok <==> Works(svc.existing, svc.faults, asg, DescribeTags, before * svc.existing.Keys)
                        && Works(svc.existing, svc.faults, asg, Detach, unwanted))
            && before - unwanted <= svc.attachments[asg] <= before
            && (ok ==> svc.attachments[asg] == before - unwanted)
  {
    var detachARNs;
    ok, detachARNs := FindDetachable(svc, attached, targetGroupARNs, asg, ownerTags);
    if !ok {
      return;
    }
    if |detachARNs| > 0 {
      var descs;
      ghost var done;
      ok, descs, done := ProcessChunked(svc, asg, Detach, detachARNs);
      PrefixElements(detachARNs, done);
    } else {
      assert Elements(detachARNs) == {};
    }
  }

  lemma PrefixElements(s: seq<string>, n: nat)
    requires n <= |s|
    ensures Elements(s[..n]) <= Elements(s)
    ensures n == |s| ==> Elements(s[..n]) == Elements(s)
  {
    assert s[..|s|] == s;
  }

  method AttachExisting(svc: Groups, allTGs: set<string>, targetGroupARNs: seq<string>, asg: string) returns (ok: bool)
    requires asg in svc.attachments
    modifies svc`attachments
    ensures OnlyChanges(old(svc.attachments), svc.attachments, asg)
    ensures ok <==> Works(svc.existing, svc.faults, asg, Attach, Elements(targetGroupARNs) * allTGs)
    ensures var before, wanted := old(svc.attachments)[asg], Elements(targetGroupARNs) * allTGs;
            && before <= svc.attachments[asg] <= before + wanted
            && (ok ==> svc.attachments[asg] == before + wanted)
  {
    var attachARNs: seq<string> := [];
    for i := 0 to |targetGroupARNs|
      invariant svc.attachments == old(svc.attachments)
      invariant Elements(attachARNs) == Elements(targetGroupARNs[..i]) * allTGs
    {
      assert targetGroupARNs[..i + 1] == targetGroupARNs[..i] + [targetGroupARNs[i]];
      Grow(targetGroupARNs[..i], targetGroupARNs[i]);
      Grow(attachARNs, targetGroupARNs[i]);
      if targetGroupARNs[i] in allTGs {
        attachARNs := attachARNs + [targetGroupARNs[i]];
      }
    }
    assert targetGroupARNs[..|targetGroupARNs|] == targetGroupARNs;
    ok := true;
    if |attachARNs| > 0 {
      var descs;
      ghost var done;
      ok, descs, done := ProcessChunked(svc, asg, Attach, attachARNs);
      PrefixElements(attachARNs, done);
    } else {
      assert Elements(attachARNs) == {};
    }
  }

  /** A second run changes nothing. */
  lemma ReconciledIsStable(
    existing: map<string, TargetGroup>, attached: set<string>, wanted: set<string>, ownerTags: map<string, string>)
    ensures var after := Reconciled(existing, attached, wanted, ownerTags);
            && Unwanted(existing, after, wanted, ownerTags) == {}
            && Reconciled(existing, after, wanted, ownerTags) == after
  {
    var after := Reconciled(existing, attached, wanted, ownerTags);
    assert Unwanted(existing, after, wanted, ownerTags) == {};
  }

  /** Attached afterwards are the existing groups that were attached, without the
      controller's own that are not wanted, and the existing wanted ones. */
  lemma ReconciledGroups(
    existing: map<string, TargetGroup>, attached: set<string>, wanted: set<string>, ownerTags: map<string, string>, arn: string)
    ensures arn in Reconciled(existing, attached, wanted, ownerTags) <==>
      arn in existing && (arn in wanted || (arn in attached && !CarriesTags(existing[arn].tags, ownerTags)))
  {
  }

  // All auto scaling groups.

  type Categories = map<TargetType, seq<string>>

  function OfType(types: Categories, targetType: TargetType): seq<string> {
    if targetType in types then types[targetType] else []
  }

  ghost function GroupsOfType(existing: map<string, TargetGroup>, arns: set<string>, targetType: TargetType): set<string> {
    set arn | arn in arns && arn in existing && existing[arn].targetType == targetType
  }

  method CategorizeTargetType(svc: Groups, allTGARNs: seq<string>) returns (ok: bool, targetTypes: Categories)
    ensures ok <==> DescribingGroups !in svc.faults
    ensures ok ==> forall t :: Elements(OfType(targetTypes, t)) == GroupsOfType(svc.existing, Elements(allTGARNs), t)
  {
    targetTypes := map[];
    var groups;
    ok, groups := svc.DescribeTargetGroups();
    if !ok {
      return;
    }
    var remaining := svc.existing.Keys;
    while remaining != {}
      invariant remaining <= svc.existing.Keys
      invariant forall t :: Elements(OfType(targetTypes, t)) ==
                            GroupsOfType(svc.existing, Elements(allTGARNs) - remaining, t)
    {
      var arn :| arn in remaining;
      targetTypes := AddOccurrences(targetTypes, svc.existing[arn].targetType, arn, allTGARNs);
      remaining := remaining - {arn};
    }
    assert Elements(allTGARNs) - {} == Elements(allTGARNs);
  }

  method AddOccurrences(types: Categories, targetType: TargetType, arn: string, allTGARNs: seq<string>)
    returns (r: Categories)
    ensures forall t :: Elements(OfType(r, t)) ==
                        Elements(OfType(types, t)) + if t == targetType && arn in allTGARNs then {arn} else {}
  {
    r := types;
    for i := 0 to |allTGARNs|
      invariant forall t :: Elements(OfType(r, t)) ==
                            Elements(OfType(types, t)) + if t == targetType && arn in allTGARNs[..i] then {arn} else {}
    {
      Grow(OfType(r, targetType), arn);
      if allTGARNs[i] != arn {
        continue;
      }
      r := r[targetType := OfType(r, targetType) + [arn]];
    }
    assert allTGARNs[..|allTGARNs|] == allTGARNs;
  }
}
