/** How well first fit packs certificates (worker.go). */
module Packing {
  import opened Text
  import opened Stacks
  import opened LoadBalancers
  import opened Matching
  import opened Placements

  // Two load balancers that could have been one hold more than one could.

  /** From one placement to a later one certificates are only added. */
  lemma {:induction false} KeysOnlyGrow(
    start: seq<Balancer>, cl: nat, requests: seq<Request>, maxCerts: int, n: nat, i: nat)
    requires cl < |start| && n <= |requests| && i < |PlaceAll(start, cl, requests[..n], maxCerts)|
    ensures i < |PlaceAll(start, cl, requests, maxCerts)|
    ensures var before := PlaceAll(start, cl, requests[..n], maxCerts)[i];
            var after := PlaceAll(start, cl, requests, maxCerts)[i];
            && before.ingresses.Keys <= after.ingresses.Keys
            && after == before.(ingresses := after.ingresses, shared := after.shared, sslPolicy := after.sslPolicy)
    decreases |requests| - n
  {
    if n == |requests| {
      assert requests[..n] == requests;
    } else {
      PlaceAllStep(start, cl, requests, n, maxCerts);
      PlaceOnlyAdds(PlaceAll(start, cl, requests[..n], maxCerts), cl, requests[n], maxCerts, i);
      KeysOnlyGrow(start, cl, requests, maxCerts, n + 1, i);
    }
  }

  lemma PlaceOnlyAdds(lbs: seq<Balancer>, cl: nat, request: Request, maxCerts: int, i: nat)
    requires cl < |lbs| && i < |lbs|
    ensures var after := Place(lbs, cl, request, maxCerts)[i];
            && lbs[i].ingresses.Keys <= after.ingresses.Keys
            && after == lbs[i].(ingresses := after.ingresses, shared := after.shared, sslPolicy := after.sslPolicy)
  {
  }

  /** The k-th ingress opens a new load balancer at position j. */
  predicate Opens(start: seq<Balancer>, cl: nat, requests: seq<Request>, maxCerts: int, k: nat, j: nat)
    requires cl < |start| && k < |requests|
  {
    |PlaceAll(start, cl, requests[..k], maxCerts)| == j && Placement(start, cl, requests, k, maxCerts) == Some(j)
  }

  lemma {:induction false} EveryNewBalancerIsOpened(
    start: seq<Balancer>, cl: nat, requests: seq<Request>, maxCerts: int, j: nat) returns (k: nat)
    requires cl < |start| <= j < |PlaceAll(start, cl, requests, maxCerts)|
    ensures k < |requests| && Opens(start, cl, requests, maxCerts, k, j)
  {
    k := |requests| - 1;
    if j < |PlaceAll(start, cl, requests[..k], maxCerts)| {
      var last := k;
      k := EveryNewBalancerIsOpened(start, cl, requests[..last], maxCerts, j);
      assert requests[..last][..k] == requests[..k];
    }
  }

  /** The settings that keep a shared ingress off a load balancer. */
  predicate SameSettings(lb: Balancer, ingress: Ingress) {
    && lb.scheme == ingress.scheme
    && lb.ipAddressType == ingress.ipAddressType
    && lb.loadBalancerType == ingress.loadBalancerType
    && lb.http2 == ingress.http2
    && lb.securityGroup == ingress.securityGroup
    && lb.wafWebACLID == ingress.wafWebACLID
  }

  /** When a shared ingress opens a load balancer, then together with any earlier unowned one
      of the same settings, and of the same SSL policy if the ingress insists on it, it holds
      more distinct certificates than fit on one. */
  lemma NewBalancersAreNeeded(
    start: seq<Balancer>, cl: nat, requests: seq<Request>, maxCerts: int, i: nat, j: nat, k: nat)
    requires cl < |start| && k < |requests| && i < j && Opens(start, cl, requests, maxCerts, k, j)
    requires requests[k].ingress.shared && SupportedType(requests[k].ingress.loadBalancerType)
    requires requests[k].ingress.hasSSLPolicyAnnotation ==>
      PlaceAll(start, cl, requests[..k], maxCerts)[i].sslPolicy == requests[k].ingress.sslPolicy
    requires j < |PlaceAll(start, cl, requests, maxCerts)|
    requires SameSettings(PlaceAll(start, cl, requests, maxCerts)[i], requests[k].ingress)
    requires PlaceAll(start, cl, requests, maxCerts)[i].StackOwner() == ""
    ensures var end := PlaceAll(start, cl, requests, maxCerts);
            |end[i].ingresses.Keys + end[j].ingresses.Keys| > maxCerts
  {
    var before := PlaceAll(start, cl, requests[..k], maxCerts);
    var end := PlaceAll(start, cl, requests, maxCerts);
    KeysOnlyGrow(start, cl, requests, maxCerts, k, i);
    NoRoomWhenOpened(before, cl, requests[k], maxCerts, i);
    OpenedHolds(start, cl, requests, maxCerts, j, k);
    SubsetSize(before[i].ingresses.Keys + requests[k].certs.value, end[i].ingresses.Keys + end[j].ingresses.Keys);
  }

  lemma OpenedHolds(start: seq<Balancer>, cl: nat, requests: seq<Request>, maxCerts: int, j: nat, k: nat)
    requires cl < |start| && k < |requests| && Opens(start, cl, requests, maxCerts, k, j)
    ensures j < |PlaceAll(start, cl, requests, maxCerts)| && requests[k].certs.Some?
    ensures requests[k].certs.value <= PlaceAll(start, cl, requests, maxCerts)[j].ingresses.Keys
  {
    PlaceAllStep(start, cl, requests, k, maxCerts);
    KeysOnlyGrow(start, cl, requests, maxCerts, k + 1, j);
  }

  /** A new load balancer has the settings of the ingress that opens it, and no stack. */
  lemma OpenedTakesSettings(start: seq<Balancer>, cl: nat, requests: seq<Request>, maxCerts: int, j: nat, k: nat)
    requires cl < |start| && k < |requests| && Opens(start, cl, requests, maxCerts, k, j)
    ensures j < |PlaceAll(start, cl, requests, maxCerts)|
    ensures var lb, ingress := PlaceAll(start, cl, requests, maxCerts)[j], requests[k].ingress;
            && SameSettings(lb, ingress)
            && lb.stack.None? && lb.state.None? && !lb.clusterLocal && lb.existingStackCertificateARNs == map[]
  {
    PlaceAllStep(start, cl, requests, k, maxCerts);
    KeysOnlyGrow(start, cl, requests, maxCerts, k + 1, j);
  }

  lemma NoRoomWhenOpened(lbs: seq<Balancer>, cl: nat, request: Request, maxCerts: int, i: nat)
    requires cl < |lbs| && i < |lbs| && Target(lbs, cl, request, maxCerts) == Some(|lbs|)
    requires request.ingress.shared && SupportedType(request.ingress.loadBalancerType)
    requires request.ingress.hasSSLPolicyAnnotation ==> lbs[i].sslPolicy == request.ingress.sslPolicy
    requires SameSettings(lbs[i], request.ingress) && lbs[i].StackOwner() == ""
    ensures request.certs.Some? && |lbs[i].ingresses.Keys + request.certs.value| > maxCerts
  {
    var arns, had := request.certs.value, lbs[i].ingresses.Keys;
    assert !Eligible(lbs[i], arns, request.ingress, maxCerts);
    assert had + arns == had + (arns - had);
  }

  /** An ingress that is not shared goes to the stack that its name owns, whatever the
      settings that an update can change, or to one before it; unless its type is phased out
      or there is no room, and then it opens a load balancer of its own. */
  lemma OwnersComeHome(start: seq<Balancer>, cl: nat, requests: seq<Request>, maxCerts: int, k: nat, i: nat)
    requires cl < |start| && k < |requests| && i < |PlaceAll(start, cl, requests[..k], maxCerts)|
    requires var lb, ingress := PlaceAll(start, cl, requests[..k], maxCerts)[i], requests[k].ingress;
             && !ingress.shared && !ingress.clusterLocal && requests[k].certs.Some?
             && lb.StackOwner() == ingress.ResourceName() && SupportedType(lb.loadBalancerType)
             && lb.scheme == ingress.scheme && lb.ipAddressType == ingress.ipAddressType
             && lb.loadBalancerType == ingress.loadBalancerType && lb.http2 == ingress.http2
             && |lb.ingresses.Keys + requests[k].certs.value| <= maxCerts
    ensures var at := Placement(start, cl, requests, k, maxCerts);
            && at.Some? && at.value <= i
            && PlaceAll(start, cl, requests[..k], maxCerts)[at.value].StackOwner() == requests[k].ingress.ResourceName()
  {
    var lbs, arns := PlaceAll(start, cl, requests[..k], maxCerts), requests[k].certs.value;
    var had := lbs[i].ingresses.Keys;
    assert had + arns == had + (arns - had);
    assert Eligible(lbs[i], arns, requests[k].ingress, maxCerts);
  }

  lemma {:induction false} SubsetSize<T>(a: set<T>, b: set<T>)
    requires a <= b
    ensures |a| <= |b|
  {
    if a != {} {
      var x :| x in a;
      SubsetSize(a - {x}, b - {x});
    }
  }

  // Uniform ingresses: the number of load balancers is the least possible.

  /** A load balancer on which every uniform ingress could be placed. */
  predicate Like(lb: Balancer, proto: Ingress) {
    && SameSettings(lb, proto)
    && (proto.hasSSLPolicyAnnotation ==> lb.sslPolicy == proto.sslPolicy)
    && lb.shared
    && !lb.clusterLocal
    && lb.StackOwner() == ""
  }

  /** A shared ingress with the settings of proto that needs one certificate; it may
      insist on its SSL policy only if proto does. */
  predicate UniformRequest(request: Request, proto: Ingress) {
    && request.ingress == proto.(
         resourceType := request.ingress.resourceType, namespace := request.ingress.namespace,
         name := request.ingress.name, hostnames := request.ingress.hostnames,
         certificateARN := request.ingress.certificateARN,
         hasSSLPolicyAnnotation := request.ingress.hasSSLPolicyAnnotation)
    && (request.ingress.hasSSLPolicyAnnotation ==> proto.hasSSLPolicyAnnotation)
    && request.certs.Some? && |request.certs.value| == 1
  }

  predicate Uniform(requests: seq<Request>, proto: Ingress) {
    forall k :: 0 <= k < |requests| ==> UniformRequest(requests[k], proto)
  }

  predicate Prototype(proto: Ingress) {
    proto.shared && !proto.clusterLocal && SupportedType(proto.loadBalancerType)
  }

  /** The position of the last load balancer that is not the cluster-local one. */
  function Last(lbs: seq<Balancer>, cl: nat): int {
    if cl == |lbs| - 1 then |lbs| - 2 else |lbs| - 1
  }

  ghost predicate Filled(lbs: seq<Balancer>, cl: nat, maxCerts: int) {
    forall i :: 0 <= i < Last(lbs, cl) && i != cl ==> |lbs[i].ingresses| == maxCerts
  }

  ghost predicate DisjointKeys(lbs: seq<Balancer>, cl: nat) {
    forall i, j, arn :: 0 <= i < |lbs| && 0 <= j < |lbs| && i != cl && j != cl ==>
      arn in lbs[i].ingresses && arn in lbs[j].ingresses ==> i == j
  }

  ghost predicate AllLike(lbs: seq<Balancer>, cl: nat, proto: Ingress, maxCerts: int) {
    forall j :: 0 <= j < |lbs| && j != cl ==> Like(lbs[j], proto) && 0 < |lbs[j].ingresses| <= maxCerts
  }

  /** Apart from the cluster-local one at cl: all load balancers are alike, no certificate
      is on two of them, and all but the last one are full. */
  ghost predicate Packed(lbs: seq<Balancer>, cl: nat, proto: Ingress, maxCerts: int) {
    && cl < |lbs| && !SupportedType(lbs[cl].loadBalancerType)
    && AllLike(lbs, cl, proto, maxCerts)
    && Filled(lbs, cl, maxCerts)
    && DisjointKeys(lbs, cl)
  }

  ghost function Covered(lbs: seq<Balancer>, cl: nat): set<string> {
    set j, arn | 0 <= j < |lbs| && j != cl && arn in lbs[j].ingresses :: arn
  }

  /** A certificate that is already covered takes its ingress to its load balancer. */
  lemma CoveredTarget(lbs: seq<Balancer>, cl: nat, request: Request, proto: Ingress, maxCerts: int, j: nat, arn: string)
    requires Packed(lbs, cl, proto, maxCerts) && Prototype(proto) && UniformRequest(request, proto)
    requires j < |lbs| && j != cl && arn in lbs[j].ingresses && request.certs == Some({arn})
    ensures Target(lbs, cl, request, maxCerts) == Some(j)
  {
    assert {arn} - lbs[j].ingresses.Keys == {};
    assert Eligible(lbs[j], {arn}, request.ingress, maxCerts);
    forall i | 0 <= i < j ensures !Eligible(lbs[i], {arn}, request.ingress, maxCerts) {
      if i != cl {
        assert {arn} - lbs[i].ingresses.Keys == {arn};
      }
    }
    FirstFitIsFirst(lbs, {arn}, request.ingress, maxCerts, j);
  }

  lemma CoveredPlace(lbs: seq<Balancer>, cl: nat, request: Request, proto: Ingress, maxCerts: int, j: nat, arn: string)
    requires Packed(lbs, cl, proto, maxCerts) && Prototype(proto) && UniformRequest(request, proto)
    requires j < |lbs| && j != cl && arn in lbs[j].ingresses && request.certs == Some({arn})
    ensures Place(lbs, cl, request, maxCerts) == lbs[j := lbs[j].Add({arn}, request.ingress)]
    ensures lbs[j].Add({arn}, request.ingress).ingresses.Keys == lbs[j].ingresses.Keys
    ensures Packed(Place(lbs, cl, request, maxCerts), cl, proto, maxCerts)
    ensures Covered(Place(lbs, cl, request, maxCerts), cl) == Covered(lbs, cl)
  {
    CoveredTarget(lbs, cl, request, proto, maxCerts, j, arn);
    var after := Place(lbs, cl, request, maxCerts);
    assert after[j].ingresses.Keys == lbs[j].ingresses.Keys;
    SameKeysStayPacked(lbs, after, cl, proto, maxCerts);
  }

  lemma SameKeysStayPacked(lbs: seq<Balancer>, after: seq<Balancer>, cl: nat, proto: Ingress, maxCerts: int)
    requires Packed(lbs, cl, proto, maxCerts) && |after| == |lbs|
    requires forall i :: 0 <= i < |lbs| ==>
      after[i] == lbs[i] || (Like(after[i], proto) && after[i].ingresses.Keys == lbs[i].ingresses.Keys && i != cl)
    ensures Packed(after, cl, proto, maxCerts)
    ensures Covered(after, cl) == Covered(lbs, cl)
  {
    forall i | 0 <= i < |lbs|
      ensures after[i].ingresses.Keys == lbs[i].ingresses.Keys && |after[i].ingresses| == |lbs[i].ingresses|
    {
      assert |after[i].ingresses| == |after[i].ingresses.Keys| && |lbs[i].ingresses| == |lbs[i].ingresses.Keys|;
    }
  }

  lemma NewPlace(lbs: seq<Balancer>, request: Request, proto: Ingress, maxCerts: int, arn: string)
    requires Packed(lbs, 0, proto, maxCerts) && Prototype(proto) && UniformRequest(request, proto) && maxCerts >= 1
    requires arn !in Covered(lbs, 0) && request.certs == Some({arn})
    ensures var last := |lbs| - 1;
            Place(lbs, 0, request, maxCerts) ==
            if last > 0 && |lbs[last].ingresses| < maxCerts then lbs[last := lbs[last].Add({arn}, request.ingress)]
            else lbs + [NewBalancer({arn}, request.ingress)]
  {
    var last := |lbs| - 1;
    forall i | 0 <= i < |lbs|
      ensures Eligible(lbs[i], {arn}, request.ingress, maxCerts) <==> i > 0 && |lbs[i].ingresses| < maxCerts
    {
      if i > 0 {
        assert arn !in lbs[i].ingresses;
        assert {arn} - lbs[i].ingresses.Keys == {arn};
      }
    }
    FirstFitIsFirst(lbs, {arn}, request.ingress, maxCerts,
                    if last > 0 && |lbs[last].ingresses| < maxCerts then last else |lbs|);
  }

  /** m added up n times. */
  function Times(n: nat, m: nat): nat {
    if n == 0 then 0 else Times(n - 1, m) + m
  }

  /** The number of certificates that a packed list holds. */
  function Load(lbs: seq<Balancer>, maxCerts: nat): nat {
    if |lbs| <= 1 then 0 else Times(|lbs| - 2, maxCerts) + |lbs[|lbs| - 1].ingresses|
  }

  /** Either the last load balancer takes one more certificate, or a new one is opened for it. */
  ghost predicate GainsOne(lbs: seq<Balancer>, after: seq<Balancer>, arn: string) {
    var p := |after| - 1;
    && 0 < p <= |lbs| <= |after|
    && after[..p] == lbs[..p]
    && after[p].ingresses.Keys == (if p < |lbs| then lbs[p].ingresses.Keys else {}) + {arn}
  }

  lemma GainCovers(lbs: seq<Balancer>, after: seq<Balancer>, arn: string)
    requires GainsOne(lbs, after, arn)
    ensures Covered(after, 0) == Covered(lbs, 0) + {arn}
  {
    var p := |after| - 1;
    forall j | 0 <= j < p ensures after[j] == lbs[j] {
      assert after[..p][j] == lbs[..p][j];
    }
    forall a ensures a in Covered(after, 0) <==> a in Covered(lbs, 0) + {arn} {
      if j :| 0 <= j < |lbs| && j != 0 && a in lbs[j].ingresses {
        assert a in after[j].ingresses;
      }
      if a == arn {
        assert a in after[p].ingresses;
      }
    }
  }

  lemma GainStaysDisjoint(lbs: seq<Balancer>, after: seq<Balancer>, arn: string)
    requires GainsOne(lbs, after, arn) && DisjointKeys(lbs, 0) && arn !in Covered(lbs, 0)
    ensures DisjointKeys(after, 0)
  {
    var p := |after| - 1;
    forall i, j, a | 0 < i < |after| && 0 < j < |after| && a in after[i].ingresses && a in after[j].ingresses ensures i == j {
      assert i < p ==> after[..p][i] == lbs[..p][i];
      assert j < p ==> after[..p][j] == lbs[..p][j];
      assert a == arn ==> a !in Covered(lbs, 0);
    }
  }

  lemma NewPlaceStaysPacked(lbs: seq<Balancer>, request: Request, proto: Ingress, maxCerts: nat, arn: string)
    requires Packed(lbs, 0, proto, maxCerts) && Prototype(proto) && UniformRequest(request, proto) && maxCerts >= 1
    requires arn !in Covered(lbs, 0) && request.certs == Some({arn})
    ensures var after := Place(lbs, 0, request, maxCerts);
            && Packed(after, 0, proto, maxCerts)
            && Covered(after, 0) == Covered(lbs, 0) + {arn}
            && Load(after, maxCerts) == Load(lbs, maxCerts) + 1
  {
    hide DisjointKeys, Covered;
    var after := NewPlaceGains(lbs, request, proto, maxCerts, arn);
    GainCovers(lbs, after, arn);
    GainStaysDisjoint(lbs, after, arn);
  }

  lemma NewPlaceGains(lbs: seq<Balancer>, request: Request, proto: Ingress, maxCerts: nat, arn: string)
    returns (after: seq<Balancer>)
    requires Packed(lbs, 0, proto, maxCerts) && Prototype(proto) && UniformRequest(request, proto) && maxCerts >= 1
    requires arn !in Covered(lbs, 0) && request.certs == Some({arn})
    ensures after == Place(lbs, 0, request, maxCerts)
    ensures GainsOne(lbs, after, arn) && after[0] == lbs[0]
    ensures AllLike(after, 0, proto, maxCerts) && Filled(after, 0, maxCerts)
    ensures Load(after, maxCerts) == Load(lbs, maxCerts) + 1
  {
    hide DisjointKeys, Place;
    NewPlace(lbs, request, proto, maxCerts, arn);
    after := Place(lbs, 0, request, maxCerts);
    var last := |lbs| - 1;
    if last > 0 && |lbs[last].ingresses| < maxCerts {
      GrownGains(lbs, request, proto, maxCerts, arn);
    } else {
      OpenedGains(lbs, request, proto, maxCerts, arn);
    }
  }

  lemma GrownGains(lbs: seq<Balancer>, request: Request, proto: Ingress, maxCerts: nat, arn: string)
    requires |lbs| > 1 && AllLike(lbs, 0, proto, maxCerts) && Filled(lbs, 0, maxCerts) && UniformRequest(request, proto)
    requires Prototype(proto) && arn !in Covered(lbs, 0) && |lbs[|lbs| - 1].ingresses| < maxCerts
    ensures var after := lbs[|lbs| - 1 := lbs[|lbs| - 1].Add({arn}, request.ingress)];
            && GainsOne(lbs, after, arn) && after[0] == lbs[0]
            && AllLike(after, 0, proto, maxCerts) && Filled(after, 0, maxCerts)
            && Load(after, maxCerts) == Load(lbs, maxCerts) + 1
  {
    var last := |lbs| - 1;
    assert arn !in lbs[last].ingresses;
    AddedSize(lbs[last].ingresses, {arn}, request.ingress);
    assert {arn} - lbs[last].ingresses.Keys == {arn};
  }

  lemma OpenedGains(lbs: seq<Balancer>, request: Request, proto: Ingress, maxCerts: nat, arn: string)
    requires |lbs| > 0 && AllLike(lbs, 0, proto, maxCerts) && Filled(lbs, 0, maxCerts) && UniformRequest(request, proto)
    requires Prototype(proto) && maxCerts >= 1 && (|lbs| > 1 ==> |lbs[|lbs| - 1].ingresses| == maxCerts)
    ensures var after := lbs + [NewBalancer({arn}, request.ingress)];
            && GainsOne(lbs, after, arn) && after[0] == lbs[0]
            && AllLike(after, 0, proto, maxCerts) && Filled(after, 0, maxCerts)
            && Load(after, maxCerts) == Load(lbs, maxCerts) + 1
  {
    var newest := NewBalancer({arn}, request.ingress);
    AddedSize(map[], {arn}, request.ingress);
    assert {arn} - {} == {arn};
    assert Like(newest, proto) && |newest.ingresses| == 1 && newest.ingresses.Keys == {arn};
    hide Like, NewBalancer, AddUnder;
  }

  /** All certificates that some ingress needs. */
  function Needed(requests: seq<Request>): set<string> {
    set k, arn | 0 <= k < |requests| && requests[k].certs.Some? && arn in requests[k].certs.value :: arn
  }

  lemma NeededStep(requests: seq<Request>)
    requires requests != [] && requests[|requests| - 1].certs.Some?
    ensures Needed(requests) == Needed(requests[..|requests| - 1]) + requests[|requests| - 1].certs.value
  {
  }

  lemma OneCertificate(request: Request) returns (arn: string)
    requires request.certs.Some? && |request.certs.value| == 1
    ensures request.certs == Some({arn})
  {
    arn :| arn in request.certs.value;
    assert |request.certs.value - {arn}| == 0;
    assert request.certs.value == {arn};
  }

  /** Without stacks, uniform ingresses are packed without gaps. */
  lemma {:induction false} UniformIngressesArePacked(requests: seq<Request>, proto: Ingress, maxCerts: nat)
    requires Prototype(proto) && Uniform(requests, proto) && maxCerts >= 1
    ensures PackedFor(PlaceAll([ClusterLocalBalancer()], 0, requests, maxCerts), requests, proto, maxCerts)
  {
    if requests != [] {
      hide PackedFor, Place;
      var front, last := requests[..|requests| - 1], requests[|requests| - 1];
      UniformIngressesArePacked(front, proto, maxCerts);
      UniformStep(PlaceAll([ClusterLocalBalancer()], 0, front, maxCerts), requests, proto, maxCerts);
    }
  }

  ghost predicate PackedFor(lbs: seq<Balancer>, requests: seq<Request>, proto: Ingress, maxCerts: nat) {
    && Packed(lbs, 0, proto, maxCerts)
    && Covered(lbs, 0) == Needed(requests)
    && |Needed(requests)| == Load(lbs, maxCerts)
  }

  lemma UniformStep(before: seq<Balancer>, requests: seq<Request>, proto: Ingress, maxCerts: nat)
    requires Prototype(proto) && Uniform(requests, proto) && maxCerts >= 1 && requests != []
    requires PackedFor(before, requests[..|requests| - 1], proto, maxCerts)
    ensures PackedFor(Place(before, 0, requests[|requests| - 1], maxCerts), requests, proto, maxCerts)
  {
    hide Place, Load, Needed, AllLike, Filled, DisjointKeys, Covered;
    var last := requests[|requests| - 1];
    var arn := OneCertificate(last);
    NeededStep(requests);
    if arn in Covered(before, 0) {
      assert Covered(before, 0) + {arn} == Covered(before, 0);
      CoveredStaysPacked(before, last, proto, maxCerts, arn);
    } else {
      NewPlaceStaysPacked(before, last, proto, maxCerts, arn);
    }
  }

  lemma CoveredStaysPacked(lbs: seq<Balancer>, request: Request, proto: Ingress, maxCerts: nat, arn: string)
    requires Packed(lbs, 0, proto, maxCerts) && Prototype(proto) && UniformRequest(request, proto)
    requires arn in Covered(lbs, 0) && request.certs == Some({arn})
    ensures var after := Place(lbs, 0, request, maxCerts);
            && Packed(after, 0, proto, maxCerts)
            && Covered(after, 0) == Covered(lbs, 0)
            && Load(after, maxCerts) == Load(lbs, maxCerts)
  {
    hide Place, AllLike, Filled, DisjointKeys;
    var j :| 0 <= j < |lbs| && j != 0 && arn in lbs[j].ingresses;
    CoveredPlace(lbs, 0, request, proto, maxCerts, j, arn);
    SameKeysSameLoad(lbs, lbs[j := lbs[j].Add({arn}, request.ingress)], maxCerts);
  }

  lemma SameKeysSameLoad(a: seq<Balancer>, b: seq<Balancer>, maxCerts: nat)
    requires |a| == |b| && forall i :: 0 <= i < |a| ==> a[i].ingresses.Keys == b[i].ingresses.Keys
    ensures Load(a, maxCerts) == Load(b, maxCerts)
  {
    if |a| > 1 {
      var last := |a| - 1;
      assert |a[last].ingresses| == |a[last].ingresses.Keys| == |b[last].ingresses.Keys| == |b[last].ingresses|;
    }
  }

  /** However certificates are spread, n load balancers hold at most n times the limit. */
  lemma {:induction false} SpreadBound(bins: seq<set<string>>, arns: set<string>, maxCerts: nat)
    requires Spreads(bins, arns, maxCerts)
    ensures |arns| <= Times(|bins|, maxCerts)
  {
    if bins == [] {
      assert arns == {};
    } else {
      var front, last := bins[..|bins| - 1], bins[|bins| - 1];
      var rest := arns - last;
      forall arn | arn in rest ensures exists i :: 0 <= i < |front| && arn in front[i] {
        var i :| 0 <= i < |bins| && arn in bins[i];
        assert arn in front[i];
      }
      SpreadBound(front, rest, maxCerts);
      SubsetSize(arns * last, last);
      assert arns == rest + arns * last;
    }
  }

  /** A distribution of certificates that keeps to the limit. */
  ghost predicate Spreads(bins: seq<set<string>>, arns: set<string>, maxCerts: nat) {
    && (forall i :: 0 <= i < |bins| ==> |bins[i]| <= maxCerts)
    && (forall arn :: arn in arns ==> exists i :: 0 <= i < |bins| && arn in bins[i])
  }

  lemma {:induction false} TimesIsMonotone(a: nat, b: nat, m: nat)
    requires a <= b
    ensures Times(a, m) <= Times(b, m)
  {
    if a < b {
      TimesIsMonotone(a, b - 1, m);
    }
  }

  lemma {:induction false} TimesIsProduct(n: nat, m: nat)
    ensures Times(n, m) == n * m
  {
    if n > 0 {
      TimesIsProduct(n - 1, m);
      assert n * m == (n - 1) * m + m;
    }
  }

  lemma MultiplesAreApart(a: nat, b: nat, m: nat)
    requires a < b
    ensures a * m + m <= b * m
  {
    TimesIsProduct(a + 1, m);
    TimesIsProduct(a, m);
    TimesIsProduct(b, m);
    TimesIsMonotone(a + 1, b, m);
  }

  lemma Quotient(n: nat, q: nat, rest: nat, m: nat)
    requires rest < m && n == q * m + rest
    ensures n / m == q
  {
    var d := n / m;
    assert n == d * m + n % m;
    if d < q {
      MultiplesAreApart(d, q, m);
    } else if d > q {
      MultiplesAreApart(q, d, m);
    }
  }

  /** Without stacks, and with uniform ingresses, the number of load balancers created is
      the number of distinct certificates divided by the limit, rounded up; and no other
      distribution within the limit uses fewer. */
  lemma PackingIsMinimal(requests: seq<Request>, proto: Ingress, maxCerts: nat)
    requires Prototype(proto) && Uniform(requests, proto) && maxCerts >= 1
    ensures var created := |PlaceAll([ClusterLocalBalancer()], 0, requests, maxCerts)| - 1;
            && created == (|Needed(requests)| + maxCerts - 1) / maxCerts
            && forall bins :: Spreads(bins, Needed(requests), maxCerts) ==> created <= |bins|
  {
    hide AllLike, Filled, DisjointKeys, Covered, PlaceAll, Load, Spreads, Times;
    UniformIngressesArePacked(requests, proto, maxCerts);
    var end := PlaceAll([ClusterLocalBalancer()], 0, requests, maxCerts);
    CreatedIsRoundedUp(end, proto, maxCerts);
    forall bins | Spreads(bins, Needed(requests), maxCerts) ensures |end| - 1 <= |bins| {
      SpreadBound(bins, Needed(requests), maxCerts);
      if |end| - 1 > |bins| {
        TimesIsMonotone(|bins|, |end| - 2, maxCerts);
        assert false;
      }
    }
  }

  lemma CreatedIsRoundedUp(end: seq<Balancer>, proto: Ingress, maxCerts: nat)
    requires Packed(end, 0, proto, maxCerts) && maxCerts >= 1
    ensures |end| - 1 == (Load(end, maxCerts) + maxCerts - 1) / maxCerts
    ensures |end| > 1 ==> Load(end, maxCerts) > Times(|end| - 2, maxCerts)
  {
    var created := |end| - 1;
    if created > 0 {
      TimesIsProduct(created - 1, maxCerts);
      assert (created - 1) * maxCerts == created * maxCerts - maxCerts;
      Quotient(Load(end, maxCerts) + maxCerts - 1, created, |end[created].ingresses| - 1, maxCerts);
    } else {
      Quotient(maxCerts - 1, 0, maxCerts - 1, maxCerts);
    }
  }
}
