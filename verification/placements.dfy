/** What holds of every placement of ingresses, whatever the order (worker.go). */
module Placements {
  import opened Text
  import opened Clock
  import opened Alarms
  import opened Stacks
  import opened Certificates
  import opened LoadBalancers
  import opened Matching
  import opened Model

  // Conservation: where ingresses end up, and how often.

  /** The keys under which an ingress is recorded. */
  function PlacedUnder(request: Request): set<string> {
    if request.ingress.clusterLocal then {DEFAULT_CLUSTER_LOCAL_DOMAIN}
    else if request.certs.Some? then request.certs.value
    else {}
  }

  /** The ingresses that go to position j and are recorded there under arn, in order. */
  function Contributions(
    start: seq<Balancer>, cl: nat, requests: seq<Request>, maxCerts: int, j: nat, arn: string): seq<Ingress>
    requires cl < |start|
  {
    if requests == [] then []
    else
      var k := |requests| - 1;
      Contributions(start, cl, requests[..k], maxCerts, j, arn)
      + if Placement(start, cl, requests, k, maxCerts) == Some(j) && arn in PlacedUnder(requests[k])
        then [requests[k].ingress] else []
  }

  lemma PlaceAddsOne(lbs: seq<Balancer>, cl: nat, request: Request, maxCerts: int, j: nat, arn: string)
    requires cl < |lbs| && j < |Place(lbs, cl, request, maxCerts)|
    ensures var before := if j < |lbs| then lbs[j].ingresses else map[];
            var here := Target(lbs, cl, request, maxCerts) == Some(j) && arn in PlacedUnder(request);
            && Under(Place(lbs, cl, request, maxCerts)[j].ingresses, arn) ==
               Under(before, arn) + (if here then [request.ingress] else [])
            && (arn in Place(lbs, cl, request, maxCerts)[j].ingresses <==> arn in before || here)
  {
  }

  /** Every list of ingresses holds what it held before, followed by exactly the
      ingresses that were placed there under that certificate. */
  lemma {:induction false} Conservation(
    start: seq<Balancer>, cl: nat, requests: seq<Request>, maxCerts: int, j: nat, arn: string)
    requires cl < |start|
    ensures var end := PlaceAll(start, cl, requests, maxCerts);
            var before := if j < |start| then start[j].ingresses else map[];
            var added := Contributions(start, cl, requests, maxCerts, j, arn);
            && (j < |end| ==> Under(end[j].ingresses, arn) == Under(before, arn) + added)
            && (j < |end| ==> (arn in end[j].ingresses <==> arn in before || added != []))
            && (j >= |end| ==> added == [])
  {
    if requests == [] {
    } else {
      var k := |requests| - 1;
      Conservation(start, cl, requests[..k], maxCerts, j, arn);
      var before := PlaceAll(start, cl, requests[..k], maxCerts);
      assert requests[..k][..k] == requests[..k];
      if j < |PlaceAll(start, cl, requests, maxCerts)| {
        PlaceAddsOne(before, cl, requests[k], maxCerts, j, arn);
      }
    }
  }

  ghost predicate DistinctIngresses(requests: seq<Request>) {
    forall i, k :: 0 <= i < k < |requests| ==> requests[i].ingress != requests[k].ingress
  }

  /** Where an ingress goes depends only on the ingresses before it. */
  lemma PlacementOfPrefix(start: seq<Balancer>, cl: nat, requests: seq<Request>, maxCerts: int, n: nat, k: nat)
    requires cl < |start| && k < n <= |requests|
    ensures Placement(start, cl, requests[..n], k, maxCerts) == Placement(start, cl, requests, k, maxCerts)
  {
    assert requests[..n][..k] == requests[..k];
  }

  lemma {:induction false} ContributionCount(
    start: seq<Balancer>, cl: nat, requests: seq<Request>, maxCerts: int, n: nat, j: nat, arn: string, k: nat)
    requires cl < |start| && n <= |requests| && k < |requests| && DistinctIngresses(requests)
    ensures multiset(Contributions(start, cl, requests[..n], maxCerts, j, arn))[requests[k].ingress] ==
            if k < n && Placement(start, cl, requests, k, maxCerts) == Some(j) && arn in PlacedUnder(requests[k])
            then 1 else 0
  {
    if n == 0 {
      assert Contributions(start, cl, requests[..0], maxCerts, j, arn) == [];
    } else {
      hide Placement, PlacedUnder, Contributions, DistinctIngresses, PlaceAll;
      var before := Contributions(start, cl, requests[..n - 1], maxCerts, j, arn);
      var added := ContributionsGrow(start, cl, requests, maxCerts, n, j, arn);
      ContributionCount(start, cl, requests, maxCerts, n - 1, j, arn, k);
      SameIngress(requests, n - 1, k);
      CountAppended(before, added, requests[k].ingress);
      assert added == [requests[k].ingress] <==>
             n - 1 == k && Placement(start, cl, requests, k, maxCerts) == Some(j) && arn in PlacedUnder(requests[k]);
    }
  }

  lemma SameIngress(requests: seq<Request>, i: nat, k: nat)
    requires i < |requests| && k < |requests| && DistinctIngresses(requests)
    ensures requests[i].ingress == requests[k].ingress <==> i == k
  {
  }

  /** What the n-th ingress contributes. */
  lemma ContributionsGrow(start: seq<Balancer>, cl: nat, requests: seq<Request>, maxCerts: int, n: nat, j: nat, arn: string)
    returns (added: seq<Ingress>)
    requires cl < |start| && 0 < n <= |requests|
    ensures added == if Placement(start, cl, requests, n - 1, maxCerts) == Some(j) && arn in PlacedUnder(requests[n - 1])
                     then [requests[n - 1].ingress] else []
    ensures Contributions(start, cl, requests[..n], maxCerts, j, arn) ==
            Contributions(start, cl, requests[..n - 1], maxCerts, j, arn) + added
  {
    hide Placement, PlacedUnder;
    PlacementOfPrefix(start, cl, requests, maxCerts, n, n - 1);
    assert requests[..n][..n - 1] == requests[..n - 1];
    added := if Placement(start, cl, requests, n - 1, maxCerts) == Some(j) && arn in PlacedUnder(requests[n - 1])
             then [requests[n - 1].ingress] else [];
  }

  lemma CountAppended(s: seq<Ingress>, added: seq<Ingress>, ingress: Ingress)
    requires |added| <= 1
    ensures multiset(s + added)[ingress] == multiset(s)[ingress] + if added == [ingress] then 1 else 0
  {
  }

  /** Only ingresses, the sharing mark and the SSL policy of a load balancer ever change. */
  lemma {:induction false} SettingsNeverChange(start: seq<Balancer>, cl: nat, requests: seq<Request>, maxCerts: int, j: nat)
    requires cl < |start| && j < |start|
    ensures var end := PlaceAll(start, cl, requests, maxCerts)[j];
            end == start[j].(ingresses := end.ingresses, shared := end.shared, sslPolicy := end.sslPolicy)
  {
    if requests != [] {
      SettingsNeverChange(start, cl, requests[..|requests| - 1], maxCerts, j);
    }
  }

  ghost predicate Unoccupied(start: seq<Balancer>) {
    forall j, arn :: 0 <= j < |start| ==> Under(start[j].ingresses, arn) == []
  }

  ghost function Occurrences(lb: Balancer, arn: string, ingress: Ingress): nat {
    multiset(Under(lb.ingresses, arn))[ingress]
  }

  /** The ingress is recorded once at the given position under each of its keys, and nowhere else. */
  ghost predicate RecordedOnce(lbs: seq<Balancer>, at: Option<nat>, request: Request) {
    forall j, arn :: 0 <= j < |lbs| ==> RecordedAsPlaced(lbs, at, request, j, arn)
  }

  ghost predicate RecordedAsPlaced(lbs: seq<Balancer>, at: Option<nat>, request: Request, j: nat, arn: string)
    requires j < |lbs|
  {
    Occurrences(lbs[j], arn, request.ingress) == if at == Some(j) && arn in PlacedUnder(request) then 1 else 0
  }

  /** Each ingress with certificates ends on exactly one load balancer, once under each
      of its certificates and under nothing else; each cluster-local one ends on the
      cluster-local load balancer, which no other ingress reaches. */
  lemma EachIngressPlacedOnce(
    start: seq<Balancer>, cl: nat, requests: seq<Request>, maxCerts: int, k: nat)
    requires cl < |start| && k < |requests| && DistinctIngresses(requests) && Unoccupied(start)
    requires !SupportedType(start[cl].loadBalancerType)
    ensures var at := Placement(start, cl, requests, k, maxCerts);
            && (at.Some? <==> requests[k].ingress.clusterLocal || requests[k].certs.Some?)
            && (at == Some(cl) <==> requests[k].ingress.clusterLocal)
            && (at.Some? ==> at.value < |PlaceAll(start, cl, requests, maxCerts)|)
    ensures RecordedOnce(PlaceAll(start, cl, requests, maxCerts), Placement(start, cl, requests, k, maxCerts), requests[k])
  {
    SettingsNeverChange(start, cl, requests[..k], maxCerts, cl);
    TargetKind(PlaceAll(start, cl, requests[..k], maxCerts), cl, requests[k], maxCerts);
    TargetExists(start, cl, requests, maxCerts, k);
    var end, at := PlaceAll(start, cl, requests, maxCerts), Placement(start, cl, requests, k, maxCerts);
    forall j, arn | 0 <= j < |end| ensures RecordedAsPlaced(end, at, requests[k], j, arn) {
      OccurrencesAt(start, cl, requests, maxCerts, k, j, arn);
    }
  }

  lemma OccurrencesAt(start: seq<Balancer>, cl: nat, requests: seq<Request>, maxCerts: int, k: nat, j: nat, arn: string)
    requires cl < |start| && k < |requests| && DistinctIngresses(requests) && Unoccupied(start)
    requires j < |PlaceAll(start, cl, requests, maxCerts)|
    ensures Occurrences(PlaceAll(start, cl, requests, maxCerts)[j], arn, requests[k].ingress) ==
            if Placement(start, cl, requests, k, maxCerts) == Some(j) && arn in PlacedUnder(requests[k]) then 1 else 0
  {
    Conservation(start, cl, requests, maxCerts, j, arn);
    ContributionCount(start, cl, requests, maxCerts, |requests|, j, arn, k);
    assert requests[..|requests|] == requests;
    assert j < |start| ==> Under(start[j].ingresses, arn) == [];
    assert Under(PlaceAll(start, cl, requests, maxCerts)[j].ingresses, arn) ==
           Contributions(start, cl, requests, maxCerts, j, arn);
  }

  lemma TargetKind(lbs: seq<Balancer>, cl: nat, request: Request, maxCerts: int)
    requires cl < |lbs| && !SupportedType(lbs[cl].loadBalancerType)
    ensures Target(lbs, cl, request, maxCerts).Some? <==> request.ingress.clusterLocal || request.certs.Some?
    ensures Target(lbs, cl, request, maxCerts) == Some(cl) <==> request.ingress.clusterLocal
  {
  }

  lemma {:induction false} ListsOnlyGrow(start: seq<Balancer>, cl: nat, requests: seq<Request>, maxCerts: int, n: nat)
    requires cl < |start| && n <= |requests|
    ensures |PlaceAll(start, cl, requests[..n], maxCerts)| <= |PlaceAll(start, cl, requests, maxCerts)|
    decreases |requests| - n
  {
    if n == |requests| {
      assert requests[..n] == requests;
    } else {
      PlaceAllStep(start, cl, requests, n, maxCerts);
      ListsOnlyGrow(start, cl, requests, maxCerts, n + 1);
    }
  }

  lemma TargetExists(start: seq<Balancer>, cl: nat, requests: seq<Request>, maxCerts: int, k: nat)
    requires cl < |start| && k < |requests|
    ensures var at := Placement(start, cl, requests, k, maxCerts);
            at.Some? ==> at.value < |PlaceAll(start, cl, requests, maxCerts)|
  {
    PlaceAllStep(start, cl, requests, k, maxCerts);
    ListsOnlyGrow(start, cl, requests, maxCerts, k + 1);
  }

  // Compatibility: what every ingress on a load balancer agrees with.

  ghost predicate AgreesWith(lb: Balancer, ingress: Ingress) {
    && !ingress.clusterLocal
    && lb.scheme == ingress.scheme
    && lb.ipAddressType == ingress.ipAddressType
    && lb.loadBalancerType == ingress.loadBalancerType
    && lb.http2 == ingress.http2
    && (ingress.shared ==> lb.securityGroup == ingress.securityGroup && lb.wafWebACLID == ingress.wafWebACLID)
    && (lb.StackOwner() != "" ==> ingress.ResourceName() == lb.StackOwner())
    && (lb.stack.Some? && lb.StackOwner() == "" ==> ingress.shared)
  }

  ghost predicate Consistent(lb: Balancer) {
    forall ingress :: lb.Holds(ingress) ==>
      if lb.clusterLocal then ingress.clusterLocal else AgreesWith(lb, ingress)
  }

  lemma AddKeepsConsistent(lb: Balancer, arns: set<string>, ingress: Ingress)
    requires Consistent(lb) && !lb.clusterLocal && lb.Compatible(ingress) && !ingress.clusterLocal
    ensures Consistent(lb.Add(arns, ingress))
  {
    var after := lb.Add(arns, ingress);
    forall x | after.Holds(x) ensures AgreesWith(after, x) {
      assert x == ingress || lb.Holds(x);
      assert |ingress.ResourceName()| > 0 && AgreesWith(lb, ingress);
    }
  }

  lemma NewIsConsistent(arns: set<string>, ingress: Ingress)
    requires !ingress.clusterLocal
    ensures Consistent(NewBalancer(arns, ingress))
  {
    assert NewBalancer(arns, ingress).StackOwner() == "";
  }

  lemma AddLocalKeepsConsistent(lb: Balancer, ingress: Ingress)
    requires Consistent(lb) && lb.clusterLocal && ingress.clusterLocal
    ensures Consistent(lb.AddLocal(ingress))
  {
    forall x | lb.AddLocal(ingress).Holds(x) ensures x.clusterLocal {
      assert x == ingress || lb.Holds(x);
    }
  }

  ghost predicate AllConsistent(lbs: seq<Balancer>) {
    forall j :: 0 <= j < |lbs| ==> Consistent(lbs[j])
  }

  ghost predicate ClusterLocalAt(lbs: seq<Balancer>, cl: nat) {
    forall j :: 0 <= j < |lbs| ==> (lbs[j].clusterLocal <==> j == cl) && (j == cl ==> lbs[j].loadBalancerType == "")
  }

  lemma PlaceKeepsConsistent(lbs: seq<Balancer>, cl: nat, request: Request, maxCerts: int)
    requires cl < |lbs| && AllConsistent(lbs) && ClusterLocalAt(lbs, cl)
    ensures var after := Place(lbs, cl, request, maxCerts); AllConsistent(after) && ClusterLocalAt(after, cl)
  {
    hide Consistent, AddUnder, Balancer.Compatible;
    var target := Target(lbs, cl, request, maxCerts);
    if request.ingress.clusterLocal {
      AddLocalKeepsConsistent(lbs[cl], request.ingress);
    } else if target.Some? {
      if target.value < |lbs| {
        AddKeepsConsistent(lbs[target.value], request.certs.value, request.ingress);
      } else {
        NewIsConsistent(request.certs.value, request.ingress);
      }
    }
  }

  /** After any sequence of placements every ingress agrees with its load balancer: on
      scheme, address type, type and HTTP/2; if shared, on security group and WAF; on an
      owned stack all ingresses are the owner's, on an unowned one all are shared. */
  lemma {:induction false} PlacementIsConsistent(start: seq<Balancer>, cl: nat, requests: seq<Request>, maxCerts: int)
    requires cl < |start| && AllConsistent(start) && ClusterLocalAt(start, cl)
    ensures var end := PlaceAll(start, cl, requests, maxCerts); AllConsistent(end) && ClusterLocalAt(end, cl)
  {
    if requests != [] {
      var front := requests[..|requests| - 1];
      PlacementIsConsistent(start, cl, front, maxCerts);
      PlaceKeepsConsistent(PlaceAll(start, cl, front, maxCerts), cl, requests[|requests| - 1], maxCerts);
    }
  }

  /** The owner read off an owned stack's load balancer is the stack's owner, as long as
      an ingress of that owner is placed and the last one placed was not shared. */
  lemma OwnerIsKept(lb: Balancer, owner: string)
    requires Consistent(lb) && !lb.clusterLocal && lb.StackOwner() != "" && lb.MayBeOwner(owner)
    ensures owner == lb.StackOwner() <==> !lb.shared && lb.Required() != {}
  {
  }

  // The SSL policy, which the last ingress placed sets.

  /** A shared ingress that insists on its SSL policy. */
  predicate Insists(ingress: Ingress) {
    ingress.shared && ingress.hasSSLPolicyAnnotation
  }

  /** The k-th ingress, which may change the policy, is placed at position i and has this one. */
  ghost predicate SetsPolicy(
    start: seq<Balancer>, cl: nat, requests: seq<Request>, maxCerts: int, k: nat, i: nat, sslPolicy: string)
    requires cl < |start| && k < |requests|
  {
    && Placement(start, cl, requests, k, maxCerts) == Some(i)
    && !requests[k].ingress.clusterLocal && !Insists(requests[k].ingress) && requests[k].ingress.sslPolicy == sslPolicy
  }

  lemma PlaceSetsPolicy(lbs: seq<Balancer>, cl: nat, request: Request, maxCerts: int, i: nat)
    requires cl < |lbs| && i < |lbs|
    ensures var before, after := lbs[i].sslPolicy, Place(lbs, cl, request, maxCerts)[i].sslPolicy;
            var here := Target(lbs, cl, request, maxCerts) == Some(i) && !request.ingress.clusterLocal;
            && after == (if here then request.ingress.sslPolicy else before)
            && (here && Insists(request.ingress) ==> before == request.ingress.sslPolicy)
  {
    hide AddUnder;
  }

  /** An ingress that insists on its policy is only placed where that is the policy: from
      one placement to a later one the policy of a load balancer stays the same unless some
      other ingress sets it. */
  lemma {:induction false} PolicyIsKept(start: seq<Balancer>, cl: nat, requests: seq<Request>, maxCerts: int, n: nat, i: nat)
    requires cl < |start| && n <= |requests| && i < |PlaceAll(start, cl, requests[..n], maxCerts)|
    ensures i < |PlaceAll(start, cl, requests, maxCerts)|
    ensures var before := PlaceAll(start, cl, requests[..n], maxCerts)[i];
            var end := PlaceAll(start, cl, requests, maxCerts)[i];
            || end.sslPolicy == before.sslPolicy
            || exists k :: n <= k < |requests| && SetsPolicy(start, cl, requests, maxCerts, k, i, end.sslPolicy)
    decreases |requests| - n
  {
    if n == |requests| {
      assert requests[..n] == requests;
    } else {
      PlaceAllStep(start, cl, requests, n, maxCerts);
      PlaceSetsPolicy(PlaceAll(start, cl, requests[..n], maxCerts), cl, requests[n], maxCerts, i);
      hide PlaceAll, Place, Target, Insists;
      PolicyIsKept(start, cl, requests, maxCerts, n + 1, i);
      assert SetsPolicy(start, cl, requests, maxCerts, n, i, requests[n].ingress.sslPolicy) <==>
             Placement(start, cl, requests, n, maxCerts) == Some(i)
             && !requests[n].ingress.clusterLocal && !Insists(requests[n].ingress);
    }
  }

  /** An ingress that insists on its policy finds it on the load balancer that it is placed
      on, and ends with it unless a later ingress that does not insist sets another. */
  lemma InsistedPolicyIsServed(start: seq<Balancer>, cl: nat, requests: seq<Request>, maxCerts: int, k: nat, i: nat)
    requires cl < |start| && k < |requests| && Placement(start, cl, requests, k, maxCerts) == Some(i)
    requires requests[k].ingress.shared && requests[k].ingress.hasSSLPolicyAnnotation && !requests[k].ingress.clusterLocal
    ensures var before := PlaceAll(start, cl, requests[..k], maxCerts);
            i < |before| ==> before[i].sslPolicy == requests[k].ingress.sslPolicy
    ensures i < |PlaceAll(start, cl, requests, maxCerts)|
    ensures var end := PlaceAll(start, cl, requests, maxCerts)[i];
            || end.sslPolicy == requests[k].ingress.sslPolicy
            || exists m :: k < m < |requests| && SetsPolicy(start, cl, requests, maxCerts, m, i, end.sslPolicy)
  {
    PlaceAllStep(start, cl, requests, k, maxCerts);
    PolicyIsKept(start, cl, requests, maxCerts, k + 1, i);
  }

  ghost predicate NonePlaced(start: seq<Balancer>, cl: nat, requests: seq<Request>, maxCerts: int, n: nat, i: nat)
    requires cl < |start| && n <= |requests|
  {
    forall m :: n <= m < |requests| ==> Placement(start, cl, requests, m, maxCerts) != Some(i)
  }

  lemma {:induction false} UntouchedStays(start: seq<Balancer>, cl: nat, requests: seq<Request>, maxCerts: int, n: nat, i: nat)
    requires cl < |start| && n <= |requests| && i < |PlaceAll(start, cl, requests[..n], maxCerts)|
    requires NonePlaced(start, cl, requests, maxCerts, n, i)
    ensures i < |PlaceAll(start, cl, requests, maxCerts)|
    ensures PlaceAll(start, cl, requests, maxCerts)[i] == PlaceAll(start, cl, requests[..n], maxCerts)[i]
    decreases |requests| - n
  {
    if n == |requests| {
      assert requests[..n] == requests;
    } else {
      PlaceAllStep(start, cl, requests, n, maxCerts);
      assert Placement(start, cl, requests, n, maxCerts) != Some(i);
      PlaceElsewhere(PlaceAll(start, cl, requests[..n], maxCerts), cl, requests[n], maxCerts, i);
      UntouchedStays(start, cl, requests, maxCerts, n + 1, i);
    }
  }

  lemma PlaceElsewhere(lbs: seq<Balancer>, cl: nat, request: Request, maxCerts: int, i: nat)
    requires cl < |lbs| && i < |lbs| && Target(lbs, cl, request, maxCerts) != Some(i)
    ensures Place(lbs, cl, request, maxCerts)[i] == lbs[i]
  {
  }

  /** The last ingress placed on a load balancer decides its policy and whether it counts as
      shared. */
  lemma LastPlacedDecides(start: seq<Balancer>, cl: nat, requests: seq<Request>, maxCerts: int, k: nat, i: nat)
    requires cl < |start| && k < |requests| && Placement(start, cl, requests, k, maxCerts) == Some(i)
    requires !requests[k].ingress.clusterLocal && NonePlaced(start, cl, requests, maxCerts, k + 1, i)
    ensures i < |PlaceAll(start, cl, requests, maxCerts)|
    ensures var end, ingress := PlaceAll(start, cl, requests, maxCerts)[i], requests[k].ingress;
            end.sslPolicy == ingress.sslPolicy && end.shared == ingress.shared
  {
    PlaceAllStep(start, cl, requests, k, maxCerts);
    UntouchedStays(start, cl, requests, maxCerts, k + 1, i);
  }

  // Certificates: only available ones, within the limit.

  /** Every certificate asked for is known to be available. */
  ghost predicate Within(lb: Balancer, available: set<string>) {
    lb.clusterLocal || (lb.ingresses.Keys <= available && lb.existingStackCertificateARNs.Keys <= lb.ingresses.Keys)
  }

  ghost predicate AllWithin(lbs: seq<Balancer>, available: set<string>) {
    forall j :: 0 <= j < |lbs| ==> Within(lbs[j], available)
  }

  ghost predicate RequestsWithin(requests: seq<Request>, available: set<string>) {
    forall k :: 0 <= k < |requests| && requests[k].certs.Some? ==> requests[k].certs.value <= available
  }

  lemma {:induction false} CertificatesAreAvailable(
    start: seq<Balancer>, cl: nat, requests: seq<Request>, maxCerts: int, available: set<string>)
    requires cl < |start| && start[cl].clusterLocal && AllWithin(start, available) && RequestsWithin(requests, available)
    ensures AllWithin(PlaceAll(start, cl, requests, maxCerts), available)
    ensures PlaceAll(start, cl, requests, maxCerts)[cl].clusterLocal
  {
    if requests != [] {
      CertificatesAreAvailable(start, cl, requests[..|requests| - 1], maxCerts, available);
    }
  }

  /** What is sent to create or update is among the keys of the load balancer. */
  lemma SentCertificatesAreKeys(lb: Balancer, now: Time)
    requires lb.existingStackCertificateARNs.Keys <= lb.ingresses.Keys
    ensures lb.CertificateARNs(now).Keys <= lb.ingresses.Keys
  {
  }

  predicate WithinLimit(lb: Balancer, maxCerts: int) {
    lb.clusterLocal || |lb.ingresses| <= maxCerts
  }

  predicate RequestsWithinLimit(requests: seq<Request>, maxCerts: int) {
    forall k :: 0 <= k < |requests| && requests[k].certs.Some? ==> |requests[k].certs.value| <= maxCerts
  }

  lemma AddedSize(m: Assignments, arns: set<string>, ingress: Ingress)
    ensures |AddUnder(m, arns, ingress)| == |m| + |arns - m.Keys|
    ensures AddUnder(m, arns, ingress).Keys == m.Keys + arns
  {
    assert AddUnder(m, arns, ingress).Keys == m.Keys + (arns - m.Keys);
  }

  lemma AddKeepsLimit(lb: Balancer, arns: set<string>, ingress: Ingress, maxCerts: int)
    requires lb.Fits(arns, maxCerts)
    ensures WithinLimit(lb.Add(arns, ingress), maxCerts)
  {
    AddedSize(lb.ingresses, arns, ingress);
  }

  lemma NewKeepsLimit(arns: set<string>, ingress: Ingress, maxCerts: int)
    requires |arns| <= maxCerts
    ensures WithinLimit(NewBalancer(arns, ingress), maxCerts)
  {
    AddedSize(map[], arns, ingress);
    assert arns - {} == arns;
  }

  lemma PlaceKeepsLimit(lbs: seq<Balancer>, cl: nat, request: Request, maxCerts: int, j: nat)
    requires cl < |lbs| && lbs[cl].clusterLocal && j < |Place(lbs, cl, request, maxCerts)|
    requires j < |lbs| ==> WithinLimit(lbs[j], maxCerts)
    requires request.certs.Some? ==> |request.certs.value| <= maxCerts
    ensures WithinLimit(Place(lbs, cl, request, maxCerts)[j], maxCerts)
  {
    hide WithinLimit, Balancer.Add, NewBalancer, Balancer.Compatible, Balancer.Fits;
    if request.ingress.clusterLocal {
      LocalKeepsLimit(lbs[cl], request.ingress, maxCerts);
    } else if request.certs.Some? {
      var target := Target(lbs, cl, request, maxCerts).value;
      if target < |lbs| {
        AddKeepsLimit(lbs[target], request.certs.value, request.ingress, maxCerts);
      } else {
        NewKeepsLimit(request.certs.value, request.ingress, maxCerts);
      }
    }
  }

  lemma LocalKeepsLimit(lb: Balancer, ingress: Ingress, maxCerts: int)
    requires lb.clusterLocal
    ensures WithinLimit(lb.AddLocal(ingress), maxCerts)
  {
  }

  /** A load balancer within the limit stays within it, and new ones start within it
      when no single ingress needs more. */
  lemma {:induction false} PlacementKeepsLimit(
    start: seq<Balancer>, cl: nat, requests: seq<Request>, maxCerts: int, j: nat)
    requires cl < |start| && start[cl].clusterLocal && j < |PlaceAll(start, cl, requests, maxCerts)|
    requires j < |start| ==> WithinLimit(start[j], maxCerts)
    requires RequestsWithinLimit(requests, maxCerts)
    ensures WithinLimit(PlaceAll(start, cl, requests, maxCerts)[j], maxCerts)
  {
    if requests != [] {
      var front := requests[..|requests| - 1];
      var before := PlaceAll(start, cl, front, maxCerts);
      SettingsNeverChange(start, cl, front, maxCerts, cl);
      if j < |before| {
        PlacementKeepsLimit(start, cl, front, maxCerts, j);
      }
      PlaceKeepsLimit(before, cl, requests[|requests| - 1], maxCerts, j);
    }
  }

  /** Without that premise: a load balancer above the limit keeps exactly the
      certificates and ingresses it was built with. */
  lemma {:induction false} AboveLimitIsUntouched(
    start: seq<Balancer>, cl: nat, requests: seq<Request>, maxCerts: int, j: nat, n: nat)
    requires cl < |start| && start[cl].clusterLocal && n <= |requests|
    requires j < |PlaceAll(start, cl, requests[..n], maxCerts)|
    requires !WithinLimit(PlaceAll(start, cl, requests[..n], maxCerts)[j], maxCerts)
    ensures j < |PlaceAll(start, cl, requests, maxCerts)|
    ensures PlaceAll(start, cl, requests, maxCerts)[j] == PlaceAll(start, cl, requests[..n], maxCerts)[j]
    decreases |requests| - n
  {
    if n == |requests| {
      assert requests[..n] == requests;
    } else {
      var before := PlaceAll(start, cl, requests[..n], maxCerts);
      PlaceAllStep(start, cl, requests, n, maxCerts);
      SettingsNeverChange(start, cl, requests[..n], maxCerts, cl);
      PlaceLeavesFull(before, cl, requests[n], maxCerts, j);
      AboveLimitIsUntouched(start, cl, requests, maxCerts, j, n + 1);
    }
  }

  lemma PlaceLeavesFull(lbs: seq<Balancer>, cl: nat, request: Request, maxCerts: int, j: nat)
    requires cl < |lbs| && j < |lbs| && lbs[cl].clusterLocal && !WithinLimit(lbs[j], maxCerts)
    ensures Place(lbs, cl, request, maxCerts)[j] == lbs[j]
  {
  }

  // Hostnames: what the ingresses of a load balancer are patched with.

  function ToLower(s: string): string {
    seq(|s|, i requires 0 <= i < |s| => if 'A' <= s[i] <= 'Z' then s[i] - 'A' + 'a' else s[i])
  }

  /** The hostname that updateIngress writes into every ingress of lb, if any. */
  function PatchedHostname(lb: Balancer, minLoadBalancerAge: Duration, now: Time): Option<string> {
    if lb.clusterLocal then Some(DEFAULT_CLUSTER_LOCAL_DOMAIN)
    else if lb.stack.None? || !lb.stack.value.IsComplete() then None
    else if lb.state.None? || !lb.state.value.active then None
    else if now - lb.state.value.createdTime < minLoadBalancerAge then None
    else Some(ToLower(lb.stack.value.dnsName))
  }

  lemma {:induction false} ContributorsArePlaced(
    start: seq<Balancer>, cl: nat, requests: seq<Request>, maxCerts: int, n: nat, j: nat, arn: string, ingress: Ingress)
    requires cl < |start| && n <= |requests|
    requires ingress in Contributions(start, cl, requests[..n], maxCerts, j, arn)
    ensures exists k :: 0 <= k < n && requests[k].ingress == ingress && Placement(start, cl, requests, k, maxCerts) == Some(j)
                        && arn in PlacedUnder(requests[k])
    decreases n
  {
    if n > 0 {
      assert requests[..n][..n - 1] == requests[..n - 1];
      PlacementOfPrefix(start, cl, requests, maxCerts, n, n - 1);
      if ingress in Contributions(start, cl, requests[..n - 1], maxCerts, j, arn) {
        ContributorsArePlaced(start, cl, requests, maxCerts, n - 1, j, arn, ingress);
      } else {
        assert requests[n - 1].ingress == ingress;
      }
    }
  }

  lemma HeldIngressWasPlaced(start: seq<Balancer>, cl: nat, requests: seq<Request>, maxCerts: int, j: nat, ingress: Ingress)
    requires cl < |start| && Unoccupied(start) && j < |PlaceAll(start, cl, requests, maxCerts)|
    requires PlaceAll(start, cl, requests, maxCerts)[j].Holds(ingress)
    ensures exists k :: 0 <= k < |requests| && requests[k].ingress == ingress
                        && Placement(start, cl, requests, k, maxCerts) == Some(j)
  {
    var end := PlaceAll(start, cl, requests, maxCerts);
    var arn :| arn in end[j].ingresses && ingress in end[j].ingresses[arn];
    Conservation(start, cl, requests, maxCerts, j, arn);
    assert j < |start| ==> Under(start[j].ingresses, arn) == [];
    assert Under(end[j].ingresses, arn) == Contributions(start, cl, requests, maxCerts, j, arn);
    assert requests[..|requests|] == requests;
    ContributorsArePlaced(start, cl, requests, maxCerts, |requests|, j, arn, ingress);
  }

  predicate SameObject(a: Ingress, b: Ingress) {
    a.resourceType == b.resourceType && a.namespace == b.namespace && a.name == b.name
  }

  ghost predicate DistinctObjects(ingresses: seq<Ingress>) {
    forall i, k :: 0 <= i < k < |ingresses| ==> !SameObject(ingresses[i], ingresses[k])
  }

  lemma StartIsPlain(listing: Listing)
    ensures var start := listing.Start();
            && |start| > 0
            && Unoccupied(start)
            && AllConsistent(start)
            && ClusterLocalAt(start, |start| - 1)
            && start[|start| - 1].clusterLocal
  {
  }

  lemma HeldBefore(lb: Balancer, cwAlarms: AlarmList, ingress: Ingress)
    requires lb.(cwAlarms := cwAlarms).Holds(ingress)
    ensures lb.Holds(ingress)
  {
  }

  lemma HeldInModel(listing: Listing, i: nat, ingress: Ingress) returns (p: nat)
    requires i < |listing.Model()| && listing.Model()[i].Holds(ingress)
    ensures p < |listing.ingresses| && SameObject(listing.ingresses[p], ingress)
    ensures listing.Requests()[p].ingress == ingress
    ensures |listing.Requests()| == |listing.ingresses|
    ensures Placement(listing.Start(), |listing.Start()| - 1, listing.Requests(), p, listing.certsPerALB) == Some(i)
  {
    hide Placement, PlaceAll, Unoccupied, AllConsistent, Resolve, SortedStacks;
    var start, requests := listing.Start(), listing.Requests();
    StartIsPlain(listing);
    HeldBefore(listing.Placed()[i], listing.cwAlarms, ingress);
    hide Balancer.Holds, Listing.Model;
    HeldIngressWasPlaced(start, |start| - 1, requests, listing.certsPerALB, i, ingress);
    p :| 0 <= p < |requests| && requests[p].ingress == ingress
         && Placement(start, |start| - 1, requests, p, listing.certsPerALB) == Some(i);
  }

  /** In one cycle no ingress is patched with two different hostnames. */
  lemma OneHostnamePerIngress(
    listing: Listing, i: nat, j: nat, a: Ingress, b: Ingress, minLoadBalancerAge: Duration, now: Time)
    requires DistinctObjects(listing.ingresses)
    requires i < |listing.Model()| && j < |listing.Model()|
    requires listing.Model()[i].Holds(a) && listing.Model()[j].Holds(b) && SameObject(a, b)
    ensures i == j && a == b
    ensures PatchedHostname(listing.Model()[i], minLoadBalancerAge, now) ==
            PatchedHostname(listing.Model()[j], minLoadBalancerAge, now)
  {
    var p := HeldInModel(listing, i, a);
    var q := HeldInModel(listing, j, b);
    assert SameObject(listing.ingresses[p], listing.ingresses[q]);
    assert p == q;
  }
}
