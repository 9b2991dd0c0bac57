/** After one cycle of successful creations there is nothing left to do (worker.go). */
module Convergence {
  import opened Text
  import opened Clock
  import opened Sorting
  import opened Alarms
  import opened Stacks
  import opened Certificates
  import opened LoadBalancers
  import opened Matching
  import opened Model
  import opened Placements
  import opened Packing
  import opened Reconciler
  import opened GracePeriods
  import opened Safety

  // Placing uniform ingresses where all their certificates already are.

  /** lbs is start after some ingresses were placed that need the given certificates. */
  ghost predicate FilledUp(start: seq<Balancer>, lbs: seq<Balancer>, cl: nat, proto: Ingress, needed: set<string>) {
    && |lbs| == |start|
    && forall j :: 0 <= j < |start| && j != cl ==> FilledUpAt(start[j], lbs[j], proto, needed)
  }

  ghost predicate FilledUpAt(before: Balancer, lb: Balancer, proto: Ingress, needed: set<string>) {
    && lb == before.(ingresses := lb.ingresses, sslPolicy := lb.sslPolicy)
    && lb.ingresses.Keys == before.ingresses.Keys
    && lb.Required() == before.ingresses.Keys * needed
    && (lb.Required() != {} ==> lb.sslPolicy == proto.sslPolicy)
  }

  lemma AddFillsUp(before: Balancer, lb: Balancer, proto: Ingress, needed: set<string>, request: Request, arn: string)
    requires FilledUpAt(before, lb, proto, needed) && UniformRequest(request, proto) && Prototype(proto)
    requires request.certs == Some({arn}) && arn in lb.ingresses && lb.shared
    ensures FilledUpAt(before, lb.Add({arn}, request.ingress), proto, needed + {arn})
  {
    var after := lb.Add({arn}, request.ingress);
    assert request.ingress.sslPolicy == proto.sslPolicy && request.ingress.shared;
    hide UniformRequest, Prototype;
    assert after.ingresses.Keys == lb.ingresses.Keys;
    assert after.Required() == lb.Required() + {arn};
    hide Balancer.Required;
    assert before.ingresses.Keys * (needed + {arn}) == before.ingresses.Keys * needed + {arn};
  }

  lemma PlaceFillsUp(
    start: seq<Balancer>, lbs: seq<Balancer>, cl: nat, request: Request, proto: Ingress, maxCerts: nat, needed: set<string>,
    arn: string)
    requires Packed(lbs, cl, proto, maxCerts) && Prototype(proto) && UniformRequest(request, proto)
    requires FilledUp(start, lbs, cl, proto, needed) && request.certs == Some({arn}) && arn in Covered(lbs, cl)
    ensures var after := Place(lbs, cl, request, maxCerts);
            && Packed(after, cl, proto, maxCerts)
            && Covered(after, cl) == Covered(lbs, cl)
            && FilledUp(start, after, cl, proto, needed + {arn})
  {
    hide Place, Filled;
    var at :| 0 <= at < |lbs| && at != cl && arn in lbs[at].ingresses;
    CoveredPlace(lbs, cl, request, proto, maxCerts, at, arn);
    var after := Place(lbs, cl, request, maxCerts);
    forall j | 0 <= j < |start| && j != cl ensures FilledUpAt(start[j], after[j], proto, needed + {arn}) {
      assert FilledUpAt(start[j], lbs[j], proto, needed);
      if j == at {
        AddFillsUp(start[j], lbs[j], proto, needed, request, arn);
      } else {
        assert arn !in lbs[j].ingresses;
        assert start[j].ingresses.Keys * (needed + {arn}) == start[j].ingresses.Keys * needed;
      }
    }
  }

  /** Nothing is opened, and each certificate is required as soon as it is needed. */
  lemma {:induction false} PlacementFillsUp(
    start: seq<Balancer>, cl: nat, requests: seq<Request>, proto: Ingress, maxCerts: nat)
    requires Packed(start, cl, proto, maxCerts) && Unoccupied(start) && Prototype(proto) && Uniform(requests, proto)
    requires Needed(requests) <= Covered(start, cl)
    ensures var end := PlaceAll(start, cl, requests, maxCerts);
            && Packed(end, cl, proto, maxCerts)
            && Covered(end, cl) == Covered(start, cl)
            && FilledUp(start, end, cl, proto, Needed(requests))
  {
    if requests == [] {
      NothingFillsUp(start, cl, proto);
    } else {
      hide Packed, Covered, FilledUp, Place, Unoccupied;
      var front, last := requests[..|requests| - 1], requests[|requests| - 1];
      var arn := OneCertificate(last);
      NeededStep(requests);
      hide Needed;
      assert arn in Needed(requests);
      PlacementFillsUp(start, cl, front, proto, maxCerts);
      PlaceFillsUp(start, PlaceAll(start, cl, front, maxCerts), cl, last, proto, maxCerts, Needed(front), arn);
    }
  }

  lemma NothingFillsUp(start: seq<Balancer>, cl: nat, proto: Ingress)
    requires Unoccupied(start)
    ensures FilledUp(start, start, cl, proto, Needed([]))
  {
    forall j | 0 <= j < |start| ensures start[j].Required() == {} {
      forall arn | arn in start[j].ingresses ensures start[j].ingresses[arn] == [] {
        assert Under(start[j].ingresses, arn) == [];
      }
    }
  }

  // What the first cycle creates.

  /** Placed in this cycle: every certificate is required, and the SSL policy is that of all ingresses. */
  ghost predicate JustPlaced(lb: Balancer, proto: Ingress) {
    && lb.stack.None? && !lb.clusterLocal && lb.shared
    && lb.Required() == lb.ingresses.Keys
    && lb.sslPolicy == proto.sslPolicy
  }

  lemma AddIsJustPlaced(lb: Balancer, request: Request, proto: Ingress)
    requires JustPlaced(lb, proto) && UniformRequest(request, proto) && Prototype(proto)
    ensures JustPlaced(lb.Add(request.certs.value, request.ingress), proto)
  {
    var arns := request.certs.value;
    var after := lb.Add(arns, request.ingress);
    assert after.ingresses.Keys == lb.ingresses.Keys + arns;
    assert after.Required() == lb.Required() + arns;
  }

  lemma NewIsJustPlaced(request: Request, proto: Ingress)
    requires UniformRequest(request, proto) && Prototype(proto)
    ensures JustPlaced(NewBalancer(request.certs.value, request.ingress), proto)
  {
    var lb := NewBalancer(request.certs.value, request.ingress);
    assert lb.Required() == lb.ingresses.Keys;
  }

  lemma {:induction false} FirstCyclePlaces(requests: seq<Request>, proto: Ingress, maxCerts: nat, j: nat)
    requires Prototype(proto) && Uniform(requests, proto)
    requires 1 <= j < |PlaceAll([ClusterLocalBalancer()], 0, requests, maxCerts)|
    ensures JustPlaced(PlaceAll([ClusterLocalBalancer()], 0, requests, maxCerts)[j], proto)
  {
    hide JustPlaced, Balancer.Add, NewBalancer, Eligible;
    var front, last := requests[..|requests| - 1], requests[|requests| - 1];
    var before := PlaceAll([ClusterLocalBalancer()], 0, front, maxCerts);
    if j < |before| {
      FirstCyclePlaces(front, proto, maxCerts, j);
      AddIsJustPlaced(before[j], last, proto);
    } else {
      NewIsJustPlaced(last, proto);
    }
  }

  /** The stack that was created for lb and has been completed. */
  ghost predicate StandsFor(config: Config, stack: Stack, lb: Balancer) {
    && stack.status.CreateComplete?
    && stack.scheme == lb.scheme && stack.securityGroup == lb.securityGroup && stack.ipAddressType == lb.ipAddressType
    && stack.loadBalancerType == lb.loadBalancerType && stack.http2 == lb.http2 && stack.wafWebACLID == lb.wafWebACLID
    && stack.sslPolicy == (if lb.sslPolicy == "" then config.sslPolicy else lb.sslPolicy)
    && stack.ownerIngress == "" && stack.cwAlarmConfigHash == lb.cwAlarms.Hash()
    && stack.certificateARNs == map arn | arn in lb.ingresses :: ZERO
  }

  ghost predicate CreatedAs(config: Config, cf: CfStack, lb: Balancer) {
    exists subnets :: WrittenFrom(cf, config.CreateSpec(cf.name, lb, "", subnets))
  }

  lemma CreatedStandsFor(config: Config, cf: CfStack, lb: Balancer)
    requires CreatedAs(config, cf, lb) && cf.status.CreateComplete? && AvoidsReservedTags(config.stackTags)
    ensures StandsFor(config, ManagedStack(cf), lb)
    ensures CERTIFICATE_ARN_TAG_LEGACY !in ToMap(cf.tags)
    ensures IsManagedStack(cf.tags, config.clusterID, config.controllerID)
  {
    var subnets :| WrittenFrom(cf, config.CreateSpec(cf.name, lb, "", subnets));
    var spec := config.CreateSpec(cf.name, lb, "", subnets);
    hide WrittenFrom, ManagedStack, AvoidsReservedTags, IsManagedStack;
    StackStateRoundTrip(cf, spec);
    RecordedCertificatesRoundTrip(cf, spec);
    WrittenStackIsManaged(cf, spec);
  }

  // What the second cycle lists.

  /** sl lists the stack of the k-th load balancer, whose name is names[k]. */
  ghost predicate Represents(config: Config, model: seq<Balancer>, names: seq<string>, sl: StackLBState, k: int) {
    1 <= k < |model| == |names| && names[k] == sl.stack.name && StandsFor(config, sl.stack, model[k])
  }

  ghost predicate IsListed(config: Config, model: seq<Balancer>, names: seq<string>, listed: seq<StackLBState>, k: int) {
    exists sl :: sl in listed && Represents(config, model, names, sl, k)
  }

  /** The listed stacks are those of the model, one each. */
  ghost predicate Mirrors(config: Config, model: seq<Balancer>, names: seq<string>, listed: seq<StackLBState>) {
    && (forall sl :: sl in listed ==> exists k :: Represents(config, model, names, sl, k))
    && (forall k :: 1 <= k < |model| ==> IsListed(config, model, names, listed, k))
    && DistinctNames(listed) && NoDuplicates(listed)
  }

  lemma {:induction false} DuplicatesAreCounted<T>(s: seq<T>)
    ensures NoDuplicates(s) <==> forall x :: multiset(s)[x] <= 1
  {
    if s != [] {
      var front, last := s[..|s| - 1], s[|s| - 1];
      assert s == front + [last];
      DuplicatesAreCounted(front);
      assert last in front <==> multiset(front)[last] > 0;
      forall x ensures multiset(s)[x] == multiset(front)[x] + if x == last then 1 else 0 {
      }
      if NoDuplicates(s) {
        assert NoDuplicates(front) && last !in front;
      } else {
        var i, j :| 0 <= i < j < |s| && s[i] == s[j];
        assert j == |s| - 1 ==> front[i] == last;
        assert j < |s| - 1 ==> front[i] == front[j];
      }
    }
  }

  lemma MirrorsAnyOrder(
    config: Config, model: seq<Balancer>, names: seq<string>, listed: seq<StackLBState>, sorted: seq<StackLBState>)
    requires Mirrors(config, model, names, listed) && multiset(sorted) == multiset(listed)
    ensures Mirrors(config, model, names, sorted)
  {
    hide Represents;
    DuplicatesAreCounted(listed);
    DuplicatesAreCounted(sorted);
    forall sl ensures sl in sorted <==> sl in listed {
      assert sl in sorted <==> sl in multiset(sorted);
      assert sl in listed <==> sl in multiset(listed);
    }
    forall k | 1 <= k < |model| ensures IsListed(config, model, names, sorted, k) {
      assert IsListed(config, model, names, listed, k);
    }
  }

  /** The load balancer that the second cycle builds for the stack of lb. */
  ghost predicate RebuiltFrom(config: Config, rebuilt: Balancer, stack: Stack, lb: Balancer) {
    && rebuilt.stack == Some(stack) && StandsFor(config, stack, lb)
    && rebuilt.scheme == lb.scheme && rebuilt.securityGroup == lb.securityGroup && rebuilt.ipAddressType == lb.ipAddressType
    && rebuilt.loadBalancerType == lb.loadBalancerType && rebuilt.http2 == lb.http2 && rebuilt.wafWebACLID == lb.wafWebACLID
    && rebuilt.sslPolicy == stack.sslPolicy && rebuilt.shared && !rebuilt.clusterLocal
    && rebuilt.ingresses.Keys == lb.ingresses.Keys && rebuilt.existingStackCertificateARNs == stack.certificateARNs
  }

  lemma Rebuild(config: Config, certs: seq<CertificateSummary>, certTTL: Duration, sl: StackLBState, lb: Balancer)
    requires StandsFor(config, sl.stack, lb) && lb.ingresses.Keys <= Ids(certs)
    ensures RebuiltFrom(config, BalancerOf(certs, certTTL, sl), sl.stack, lb)
  {
    forall arn | arn in lb.ingresses ensures CertificateExists(certs, arn) {
      assert arn in Ids(certs);
    }
    assert Available(certs, sl.stack.certificateARNs) == sl.stack.certificateARNs;
  }

  /** The first cycle's load balancers and what the second cycle makes of their stacks. */
  ghost predicate Rebuilds(
    config: Config, model: seq<Balancer>, names: seq<string>, sorted: seq<StackLBState>, start: seq<Balancer>)
  {
    && Mirrors(config, model, names, sorted) && SortedBy(Before, sorted) && |start| == |sorted| + 1
    && start[|sorted|] == ClusterLocalBalancer()
    && forall i, k :: 0 <= i < |sorted| && Represents(config, model, names, sorted[i], k) ==>
         RebuiltFrom(config, start[i], sorted[i].stack, model[k])
  }

  ghost predicate DistinctStackNames(names: seq<string>) {
    forall i, k :: 1 <= i < k < |names| ==> names[i] != names[k]
  }

  /** Different listed stacks stand for different load balancers. */
  lemma RepresentsOne(
    config: Config, model: seq<Balancer>, names: seq<string>, sorted: seq<StackLBState>, i: nat, j: nat, k: int)
    requires Mirrors(config, model, names, sorted) && i < |sorted| && j < |sorted|
    requires Represents(config, model, names, sorted[i], k) && Represents(config, model, names, sorted[j], k)
    ensures i == j
  {
    assert sorted[i] in sorted && sorted[j] in sorted;
    assert sorted[i] == sorted[j];
  }

  lemma SameSize(config: Config, rebuilt: Balancer, stack: Stack, lb: Balancer)
    requires RebuiltFrom(config, rebuilt, stack, lb)
    ensures |rebuilt.ingresses| == |lb.ingresses| == |stack.certificateARNs|
  {
    assert |rebuilt.ingresses| == |rebuilt.ingresses.Keys| && |lb.ingresses| == |lb.ingresses.Keys|;
    assert stack.certificateARNs.Keys == lb.ingresses.Keys;
    assert |stack.certificateARNs| == |stack.certificateARNs.Keys|;
  }

  lemma RebuiltIsFilled(
    config: Config, model: seq<Balancer>, names: seq<string>, sorted: seq<StackLBState>, start: seq<Balancer>,
    proto: Ingress, maxCerts: nat, i: nat)
    requires Rebuilds(config, model, names, sorted, start) && Packed(model, 0, proto, maxCerts)
    requires i < |sorted| - 1
    ensures |start[i].ingresses| == maxCerts
  {
    hide StandsFor, RebuiltFrom, DisjointKeys;
    var last := |sorted| - 1;
    assert sorted[i] in sorted && sorted[last] in sorted;
    var k :| Represents(config, model, names, sorted[i], k);
    var l :| Represents(config, model, names, sorted[last], l);
    SameSize(config, start[i], sorted[i].stack, model[k]);
    SameSize(config, start[last], sorted[last].stack, model[l]);
    assert Before(sorted[i], sorted[last]);
  }

  lemma RebuiltIsDisjoint(
    config: Config, model: seq<Balancer>, names: seq<string>, sorted: seq<StackLBState>, start: seq<Balancer>)
    requires Rebuilds(config, model, names, sorted, start) && DisjointKeys(model, 0)
    ensures DisjointKeys(start, |sorted|)
  {
    hide StandsFor;
    forall i, j, arn | 0 <= i < |sorted| && 0 <= j < |sorted| && arn in start[i].ingresses && arn in start[j].ingresses
      ensures i == j
    {
      assert sorted[i] in sorted && sorted[j] in sorted;
      var k :| Represents(config, model, names, sorted[i], k);
      var l :| Represents(config, model, names, sorted[j], l);
      assert arn in model[k].ingresses && arn in model[l].ingresses;
      RepresentsOne(config, model, names, sorted, i, j, k);
    }
  }

  lemma RebuiltIsAlike(
    config: Config, model: seq<Balancer>, names: seq<string>, sorted: seq<StackLBState>, start: seq<Balancer>,
    proto: Ingress, maxCerts: nat, i: nat)
    requires Rebuilds(config, model, names, sorted, start) && Packed(model, 0, proto, maxCerts) && i < |sorted|
    requires proto.hasSSLPolicyAnnotation ==> proto.sslPolicy != ""
    ensures Like(start[i], proto) && 0 < |start[i].ingresses| <= maxCerts
  {
    hide DisjointKeys, Filled;
    assert sorted[i] in sorted;
    var k :| Represents(config, model, names, sorted[i], k);
    SameSize(config, start[i], sorted[i].stack, model[k]);
    assert Like(model[k], proto);
  }

  lemma RebuiltCovers(
    config: Config, model: seq<Balancer>, names: seq<string>, sorted: seq<StackLBState>, start: seq<Balancer>)
    requires Rebuilds(config, model, names, sorted, start)
    ensures Covered(start, |sorted|) == Covered(model, 0)
  {
    hide StandsFor;
    forall arn | arn in Covered(start, |sorted|) ensures arn in Covered(model, 0) {
      var i :| 0 <= i < |start| && i != |sorted| && arn in start[i].ingresses;
      assert sorted[i] in sorted;
      var k :| Represents(config, model, names, sorted[i], k);
      assert arn in model[k].ingresses;
    }
    forall arn | arn in Covered(model, 0) ensures arn in Covered(start, |sorted|) {
      var k :| 0 <= k < |model| && k != 0 && arn in model[k].ingresses;
      assert IsListed(config, model, names, sorted, k);
      var sl :| sl in sorted && Represents(config, model, names, sl, k);
      var i :| 0 <= i < |sorted| && sorted[i] == sl;
      assert arn in start[i].ingresses;
    }
  }

  /** The second cycle starts from load balancers that are packed without gaps. */
  lemma RebuiltIsPacked(
    config: Config, model: seq<Balancer>, names: seq<string>, sorted: seq<StackLBState>, start: seq<Balancer>,
    proto: Ingress, maxCerts: nat)
    requires Rebuilds(config, model, names, sorted, start) && Packed(model, 0, proto, maxCerts)
    requires proto.hasSSLPolicyAnnotation ==> proto.sslPolicy != ""
    ensures Packed(start, |sorted|, proto, maxCerts) && Covered(start, |sorted|) == Covered(model, 0)
  {
    assert |start| == |sorted| + 1 && start[|sorted|] == ClusterLocalBalancer();
    hide Rebuilds, Like, DisjointKeys, Covered;
    RebuiltIsDisjoint(config, model, names, sorted, start);
    RebuiltCovers(config, model, names, sorted, start);
    forall i | 0 <= i < |sorted|
      ensures Like(start[i], proto) && 0 < |start[i].ingresses| <= maxCerts
      ensures i < |sorted| - 1 ==> |start[i].ingresses| == maxCerts
    {
      RebuiltIsAlike(config, model, names, sorted, start, proto, maxCerts, i);
      if i < |sorted| - 1 {
        RebuiltIsFilled(config, model, names, sorted, start, proto, maxCerts, i);
      }
    }
  }

  // The two cycles.

  /** A listing of one configuration, with ingresses that differ only in their names,
      their hostnames and the one certificate that each of them needs. */
  ghost predicate UniformListing(config: Config, listing: Listing, proto: Ingress) {
    && listing.certsPerALB == config.certsPerALB >= 1
    && Prototype(proto) && (proto.hasSSLPolicyAnnotation ==> proto.sslPolicy != "")
    && Uniform(listing.Requests(), proto)
  }

  lemma FirstModel(config: Config, first: Listing, proto: Ingress)
    requires UniformListing(config, first, proto) && first.stacks == []
    ensures var model := first.Model();
            && Packed(model, 0, proto, config.certsPerALB)
            && Covered(model, 0) == Needed(first.Requests())
            && model[0].clusterLocal
            && forall j :: 1 <= j < |model| ==> JustPlaced(model[j], proto) && model[j].cwAlarms == first.cwAlarms
  {
    hide Uniform, Covered, Needed, JustPlaced, DisjointKeys, Listing.Requests;
    var requests, placed := first.Requests(), first.Placed();
    assert SortedStacks([]) == [];
    assert first.Start() == [ClusterLocalBalancer()];
    UniformIngressesArePacked(requests, proto, config.certsPerALB);
    SettingsNeverChange(first.Start(), 0, requests, config.certsPerALB, 0);
    forall j | 1 <= j < |placed| ensures JustPlaced(placed[j], proto) {
      FirstCyclePlaces(requests, proto, config.certsPerALB, j);
    }
    AlarmsKeepPacked(placed, proto, config.certsPerALB, first.cwAlarms);
    forall j | 1 <= j < |placed| ensures JustPlaced(placed[j].(cwAlarms := first.cwAlarms), proto) {
      AlarmsKeepPlaced(placed[j], proto, first.cwAlarms);
    }
  }

  lemma AlarmsKeepPlaced(lb: Balancer, proto: Ingress, cwAlarms: AlarmList)
    requires JustPlaced(lb, proto)
    ensures JustPlaced(lb.(cwAlarms := cwAlarms), proto)
  {
    assert lb.(cwAlarms := cwAlarms).Required() == lb.Required();
  }

  lemma AlarmsKeepPacked(lbs: seq<Balancer>, proto: Ingress, maxCerts: nat, cwAlarms: AlarmList)
    requires Packed(lbs, 0, proto, maxCerts)
    ensures Packed(WithAlarms(lbs, cwAlarms), 0, proto, maxCerts)
    ensures Covered(WithAlarms(lbs, cwAlarms), 0) == Covered(lbs, 0)
  {
    var after := WithAlarms(lbs, cwAlarms);
    forall j | 0 <= j < |lbs| ensures after[j].ingresses == lbs[j].ingresses && (Like(lbs[j], proto) ==> Like(after[j], proto)) {
      assert after[j].StackOwner() == lbs[j].StackOwner();
    }
  }

  /** The second listing has the stacks that were created for the first one, which had
      none, and ingresses that need the same certificates. */
  ghost predicate TwoCycles(config: Config, first: Listing, second: Listing, proto: Ingress, names: seq<string>) {
    && UniformListing(config, first, proto) && UniformListing(config, second, proto)
    && first.stacks == [] && Mirrors(config, first.Model(), names, second.stacks)
    && Needed(second.Requests()) == Needed(first.Requests()) && second.cwAlarms == first.cwAlarms
    && config.sslPolicy != ""
  }

  lemma SecondStart(config: Config, first: Listing, second: Listing, proto: Ingress, names: seq<string>)
    requires TwoCycles(config, first, second, proto, names)
    ensures Rebuilds(config, first.Model(), names, SortedStacks(second.stacks), second.Start())
  {
    hide Uniform, Packed, Needed, Resolve, Listing.Model, JustPlaced, StandsFor, RebuiltFrom, BalancerOf, RequestsWithin;
    var model, sorted, start := first.Model(), SortedStacks(second.stacks), second.Start();
    FirstModel(config, first, proto);
    MirrorsAnyOrder(config, model, names, second.stacks, sorted);
    BeforeIsLinear();
    SortSorts(Before, second.stacks);
    RequestsAreAvailable(second);
    NeededIsAvailable(second.Requests(), Ids(second.certs));
    forall i, k | 0 <= i < |sorted| && Represents(config, model, names, sorted[i], k)
      ensures RebuiltFrom(config, start[i], sorted[i].stack, model[k])
    {
      forall arn | arn in model[k].ingresses ensures arn in Ids(second.certs) {
        assert arn in Covered(model, 0);
      }
      Rebuild(config, second.certs, second.certTTL, sorted[i], model[k]);
    }
  }

  lemma NeededIsAvailable(requests: seq<Request>, available: set<string>)
    requires RequestsWithin(requests, available)
    ensures Needed(requests) <= available
  {
  }

  ghost predicate StatusIs(lb: Balancer, now: Time, status: Status) {
    lb.Grounded() && lb.Status(now, false) == status
  }

  lemma StatusWhenFilledUp(
    config: Config, lb: Balancer, before: Balancer, after: Balancer, proto: Ingress, needed: set<string>, now: Time)
    requires JustPlaced(lb, proto) && before.stack.Some? && RebuiltFrom(config, before, before.stack.value, lb)
    requires FilledUpAt(before, after, proto, needed) && lb.ingresses.Keys <= needed && lb.ingresses.Keys != {}
    requires config.sslPolicy != ""
    ensures StatusIs(after.(cwAlarms := lb.cwAlarms), now, if proto.sslPolicy != "" then Ready else Update)
  {
    var end := after.(cwAlarms := lb.cwAlarms);
    assert end.Required() == after.Required() == lb.ingresses.Keys;
    hide Balancer.Required;
    assert end.Retained(now) == {};
    assert end.CertificateARNs(now) == end.stack.value.certificateARNs;
    hide Balancer.CertificateARNs, Balancer.Retained;
    var arn :| arn in lb.ingresses.Keys;
    assert arn in end.stack.value.certificateARNs;
  }

  /** In the second cycle every ingress goes to a load balancer that has its certificate. */
  lemma SecondPlaced(config: Config, first: Listing, second: Listing, proto: Ingress, names: seq<string>)
    requires TwoCycles(config, first, second, proto, names)
    ensures FilledUp(second.Start(), second.Placed(), |SortedStacks(second.stacks)|, proto, Needed(second.Requests()))
    ensures second.Placed()[|SortedStacks(second.stacks)|].clusterLocal
  {
    hide Uniform, Needed, Listing.Requests, DisjointKeys, Filled, AllLike, Covered, Mirrors, Listing.Model, FilledUp,
         Listing.Start;
    var sorted, start, requests := SortedStacks(second.stacks), second.Start(), second.Requests();
    FirstModel(config, first, proto);
    SecondStart(config, first, second, proto, names);
    assert |start| == |sorted| + 1;
    hide Rebuilds;
    RebuiltIsPacked(config, first.Model(), names, sorted, start, proto, config.certsPerALB);
    StartIsPlain(second);
    PlacementFillsUp(start, |sorted|, requests, proto, config.certsPerALB);
    SettingsNeverChange(start, |sorted|, requests, config.certsPerALB, |sorted|);
  }

  /** With the stacks of the first cycle completed, whatever the order of stacks and
      ingresses, the second one has nothing to do, at any time - except for ingresses with
      an empty SSL policy, for which it goes on asking for updates. */
  lemma SecondCycleHasNothingToDo(
    config: Config, first: Listing, second: Listing, proto: Ingress, names: seq<string>, i: nat, now: Time)
    requires TwoCycles(config, first, second, proto, names) && i < |second.Model()|
    ensures |second.Model()| == |second.stacks| + 1
    ensures StatusIs(second.Model()[i], now, if i == |second.stacks| || proto.sslPolicy != "" then Ready else Update)
  {
    var sorted := SortedStacks(second.stacks);
    assert |sorted| == |multiset(sorted)| == |multiset(second.stacks)| == |second.stacks|;
    SecondPlaced(config, first, second, proto, names);
    if i == |sorted| {
      ClusterLocalIsReady(second.Model()[i], now);
    } else {
      SecondCycleAt(config, first, second, proto, names, i, now);
    }
  }

  lemma SecondCycleAt(
    config: Config, first: Listing, second: Listing, proto: Ingress, names: seq<string>, i: nat, now: Time)
    requires TwoCycles(config, first, second, proto, names) && i < |SortedStacks(second.stacks)| < |second.Model()|
    ensures StatusIs(second.Model()[i], now, if proto.sslPolicy != "" then Ready else Update)
  {
    hide Uniform, Needed, Listing.Requests, JustPlaced, StandsFor, BalancerOf, Filled, DisjointKeys, Covered, Like,
         FilledUpAt, StatusIs, PlaceAll, Mirrors;
    var model, sorted := first.Model(), SortedStacks(second.stacks);
    FirstModel(config, first, proto);
    SecondStart(config, first, second, proto, names);
    SecondPlaced(config, first, second, proto, names);
    var k := RepresentedBy(config, model, names, sorted, i);
    KeysAreCovered(model, k);
    assert |model[k].ingresses| > 0 && model[k].ingresses.Keys != {};
    assert second.Model()[i] == second.Placed()[i].(cwAlarms := first.cwAlarms);
    assert second.Start()[i].stack == Some(sorted[i].stack);
    StatusWhenFilledUp(config, model[k], second.Start()[i], second.Placed()[i], proto, Needed(second.Requests()), now);
  }

  lemma RepresentedBy(config: Config, model: seq<Balancer>, names: seq<string>, sorted: seq<StackLBState>, i: nat)
    returns (k: int)
    requires Mirrors(config, model, names, sorted) && i < |sorted|
    ensures Represents(config, model, names, sorted[i], k)
  {
    assert sorted[i] in sorted;
    k :| Represents(config, model, names, sorted[i], k);
  }

  lemma ClusterLocalIsReady(lb: Balancer, now: Time)
    requires lb.clusterLocal
    ensures StatusIs(lb, now, Ready)
  {
  }

  lemma KeysAreCovered(lbs: seq<Balancer>, k: int)
    requires 0 < k < |lbs|
    ensures lbs[k].ingresses.Keys <= Covered(lbs, 0)
  {
  }

  /** Reordering the ingresses changes neither which certificates are needed nor that they are uniform. */
  lemma NeededIgnoresOrder(a: seq<Request>, b: seq<Request>, proto: Ingress)
    requires multiset(a) == multiset(b)
    ensures Needed(a) == Needed(b)
    ensures Uniform(a, proto) <==> Uniform(b, proto)
  {
    hide UniformRequest;
    forall request ensures request in a <==> request in b {
      assert request in a <==> request in multiset(a);
      assert request in b <==> request in multiset(b);
    }
    forall k | 0 <= k < |a| ensures a[k] in b {
      assert a[k] in a;
    }
    forall k | 0 <= k < |b| ensures b[k] in a {
      assert b[k] in b;
    }
  }
}
