/** Distributing ingresses over load balancers (worker.go): the model that one cycle
    builds from the stacks and the ingresses it has listed. */
module Matching {
  import opened Text
  import opened Clock
  import opened Sorting
  import opened Alarms
  import opened Stacks
  import opened Certificates
  import opened LoadBalancers

  // The certificates an ingress needs.

  predicate CertificateExists(certs: seq<CertificateSummary>, arn: string) {
    exists c :: c in certs && c.id == arn
  }

  /** The certificates of an ingress: the pinned one if it is available, otherwise the
      best one of each hostname, if there is any. */
  function Resolve(certs: seq<CertificateSummary>, ingress: Ingress, now: Time): (arns: Option<set<string>>)
    ensures arns.Some? ==> arns.value != {} && forall arn :: arn in arns.value ==> CertificateExists(certs, arn)
  {
    if ingress.certificateARN != "" then
      if CertificateExists(certs, ingress.certificateARN) then Some({ingress.certificateARN}) else None
    else
      var ids := MatchedIds(certs, ingress.hostnames, now);
      if ids == {} then None else Some(ids)
  }

  method FindMatchingCertificateIDs(certs: seq<CertificateSummary>, hostnames: seq<string>, now: Time)
    returns (certIDs: seq<string>)
    ensures NoDuplicates(certIDs) && Elements(certIDs) == MatchedIds(certs, hostnames, now)
  {
    var summaries := FindBestMatchingCertificates(certs, hostnames, now);
    certIDs := [];
    for i := 0 to |summaries|
      invariant |certIDs| == i && forall j :: 0 <= j < i ==> certIDs[j] == summaries[j].id
    {
      certIDs := certIDs + [summaries[i].id];
    }
    assert certIDs == seq(|summaries|, i requires 0 <= i < |summaries| => summaries[i].id);
    assert Elements(certIDs) == (set c | c in summaries :: c.id);
  }

  // Placing one ingress.

  /** An ingress together with the certificates that were found for it. */
  datatype Request = Request(ingress: Ingress, certs: Option<set<string>>)

  predicate SupportedType(loadBalancerType: string) {
    loadBalancerType == LOAD_BALANCER_TYPE_APPLICATION || loadBalancerType == LOAD_BALANCER_TYPE_NETWORK
  }

  predicate Eligible(lb: Balancer, arns: set<string>, ingress: Ingress, maxCerts: int) {
    SupportedType(lb.loadBalancerType) && lb.Accepts(arns, ingress, maxCerts)
  }

  /** The first load balancer from position i on that takes the ingress. */
  function FirstFit(lbs: seq<Balancer>, i: nat, arns: set<string>, ingress: Ingress, maxCerts: int): (r: Option<nat>)
    requires i <= |lbs|
    ensures r.Some? ==> i <= r.value < |lbs| && Eligible(lbs[r.value], arns, ingress, maxCerts)
    ensures forall j :: i <= j < |lbs| && (r.Some? ==> j < r.value) ==> !Eligible(lbs[j], arns, ingress, maxCerts)
    decreases |lbs| - i
  {
    if i == |lbs| then None
    else if Eligible(lbs[i], arns, ingress, maxCerts) then Some(i)
    else FirstFit(lbs, i + 1, arns, ingress, maxCerts)
  }

  function NewBalancer(arns: set<string>, ingress: Ingress): Balancer {
    Balancer(
      ingresses := AddUnder(map[], arns, ingress),
      scheme := ingress.scheme,
      stack := None,
      state := None,
      existingStackCertificateARNs := map[],
      shared := ingress.shared,
      http2 := ingress.http2,
      clusterLocal := false,
      securityGroup := ingress.securityGroup,
      sslPolicy := ingress.sslPolicy,
      ipAddressType := ingress.ipAddressType,
      wafWebACLID := ingress.wafWebACLID,
      certTTL := 0,
      cwAlarms := AlarmList([], ""),
      loadBalancerType := ingress.loadBalancerType)
  }

  function ClusterLocalBalancer(): Balancer {
    Balancer(map[], "", None, None, map[], false, false, true, "", "", "", "", 0, AlarmList([], ""), "")
  }

  /** Where the next ingress goes; cl is the position of the cluster-local load balancer. */
  function Target(lbs: seq<Balancer>, cl: nat, request: Request, maxCerts: int): Option<nat> {
    if request.ingress.clusterLocal then Some(cl)
    else if request.certs.None? then None
    else
      var fit := FirstFit(lbs, 0, request.certs.value, request.ingress, maxCerts);
      if fit.Some? then fit else Some(|lbs|)
  }

  function Place(lbs: seq<Balancer>, cl: nat, request: Request, maxCerts: int): (r: seq<Balancer>)
    requires cl < |lbs|
    ensures |lbs| <= |r|
  {
    var target := Target(lbs, cl, request, maxCerts);
    if request.ingress.clusterLocal then lbs[cl := lbs[cl].AddLocal(request.ingress)]
    else if target.None? then lbs
    else if target.value < |lbs| then
      lbs[target.value := lbs[target.value].Add(request.certs.value, request.ingress)]
    else lbs + [NewBalancer(request.certs.value, request.ingress)]
  }

  function PlaceAll(start: seq<Balancer>, cl: nat, requests: seq<Request>, maxCerts: int): (r: seq<Balancer>)
    requires cl < |start|
    ensures |start| <= |r|
  {
    if requests == [] then start
    else Place(PlaceAll(start, cl, requests[..|requests| - 1], maxCerts), cl, requests[|requests| - 1], maxCerts)
  }

  /** Where the k-th ingress goes. */
  function Placement(start: seq<Balancer>, cl: nat, requests: seq<Request>, k: nat, maxCerts: int): Option<nat>
    requires cl < |start| && k < |requests|
  {
    Target(PlaceAll(start, cl, requests[..k], maxCerts), cl, requests[k], maxCerts)
  }

  // The loop over objects computes this.

  function Views(lbs: seq<LoadBalancer>): (r: seq<Balancer>)
    reads lbs
    ensures |r| == |lbs| && forall i :: 0 <= i < |lbs| ==> r[i] == lbs[i].View()
  {
    if lbs == [] then [] else [lbs[0].View()] + Views(lbs[1..])
  }

  function Requests(certs: seq<CertificateSummary>, ingresses: seq<Ingress>, now: Time): (r: seq<Request>)
    ensures |r| == |ingresses|
    ensures forall i :: 0 <= i < |r| ==> r[i] == Request(ingresses[i], Resolve(certs, ingresses[i], now))
  {
    seq(|ingresses|, i requires 0 <= i < |ingresses| => Request(ingresses[i], Resolve(certs, ingresses[i], now)))
  }

  function Match(
    lbs: seq<Balancer>, certs: seq<CertificateSummary>, certsPerALB: int, ingresses: seq<Ingress>, now: Time): seq<Balancer>
  {
    PlaceAll(lbs + [ClusterLocalBalancer()], |lbs|, Requests(certs, ingresses, now), certsPerALB)
  }

  /** Offers an ingress to one load balancer. */
  method Offer(lb: LoadBalancer, certificateARNs: seq<string>, ingress: Ingress, certsPerALB: int) returns (added: bool)
    requires NoDuplicates(certificateARNs) && !ingress.clusterLocal
    modifies lb
    ensures added <==> Eligible(old(lb.View()), Elements(certificateARNs), ingress, certsPerALB)
    ensures lb.View() ==
            if added then old(lb.View()).Add(Elements(certificateARNs), ingress) else old(lb.View())
  {
    if !SupportedType(lb.loadBalancerType) {
      return false;
    }
    NewCertsOfSet(lb.ingresses, certificateARNs);
    AppendAllOfSet(lb.ingresses, certificateARNs, ingress);
    added := lb.AddIngress(certificateARNs, ingress, certsPerALB);
  }

  lemma FirstFitIsFirst(lbs: seq<Balancer>, arns: set<string>, ingress: Ingress, maxCerts: int, i: nat)
    requires i <= |lbs| && forall j :: 0 <= j < i ==> !Eligible(lbs[j], arns, ingress, maxCerts)
    ensures i < |lbs| && Eligible(lbs[i], arns, ingress, maxCerts) ==> FirstFit(lbs, 0, arns, ingress, maxCerts) == Some(i)
    ensures i == |lbs| ==> FirstFit(lbs, 0, arns, ingress, maxCerts) == None
  {
  }

  /** Offers an ingress to each load balancer in turn until one takes it. */
  method OfferInTurn(lbs: seq<LoadBalancer>, certificateARNs: seq<string>, ingress: Ingress, certsPerALB: int)
    returns (at: Option<nat>)
    requires NoDuplicates(lbs) && NoDuplicates(certificateARNs) && !ingress.clusterLocal
    modifies lbs
    ensures at == FirstFit(old(Views(lbs)), 0, Elements(certificateARNs), ingress, certsPerALB)
    ensures Views(lbs) ==
            if at.None? then old(Views(lbs))
            else old(Views(lbs))[at.value := old(lbs[at.value].View()).Add(Elements(certificateARNs), ingress)]
  {
    hide Eligible, Balancer.Add, FirstFit, Elements;
    ghost var before, arns := Views(lbs), Elements(certificateARNs);
    for i := 0 to |lbs|
      invariant forall j :: 0 <= j < |lbs| ==> lbs[j].View() == before[j]
      invariant forall j :: 0 <= j < i ==> !Eligible(before[j], arns, ingress, certsPerALB)
    {
      var added := Offer(lbs[i], certificateARNs, ingress, certsPerALB);
      assert forall j :: 0 <= j < |lbs| && j != i ==> lbs[j] != lbs[i];
      if added {
        UpdatedAt(Views(lbs), before, i, lbs[i].View());
        FirstFitIsFirst(before, arns, ingress, certsPerALB, i);
        return Some(i);
      }
    }
    FirstFitIsFirst(before, arns, ingress, certsPerALB, |lbs|);
    return None;
  }

  lemma UpdatedAt<T>(after: seq<T>, before: seq<T>, i: nat, x: T)
    requires i < |before| == |after| && after[i] == x
    requires forall j :: 0 <= j < |before| && j != i ==> after[j] == before[j]
    ensures after == before[i := x]
  {
  }

  /** The certificates of an ingress in the arbitrary order in which they are found. */
  method FindCertificates(certs: seq<CertificateSummary>, ingress: Ingress, now: Time)
    returns (certificateARNs: Option<seq<string>>)
    ensures certificateARNs.Some? ==> NoDuplicates(certificateARNs.value)
    ensures Resolve(certs, ingress, now) ==
            if certificateARNs.Some? then Some(Elements(certificateARNs.value)) else None
  {
    if ingress.certificateARN != "" {
      if !CertificateExists(certs, ingress.certificateARN) {
        return None;
      }
      assert Elements([ingress.certificateARN]) == {ingress.certificateARN};
      return Some([ingress.certificateARN]);
    }
    var ids := FindMatchingCertificateIDs(certs, ingress.hostnames, now);
    if ids == [] {
      return None;
    }
    assert ids[0] in Elements(ids);
    return Some(ids);
  }

  method PlaceClusterLocal(lbs: seq<LoadBalancer>, cl: nat, ingress: Ingress)
    requires NoDuplicates(lbs) && cl < |lbs| && ingress.clusterLocal
    modifies lbs
    ensures Views(lbs) == old(Views(lbs))[cl := old(lbs[cl].View()).AddLocal(ingress)]
  {
    hide Balancer.AddLocal;
    var _ := lbs[cl].AddIngress([], ingress, 0);
    assert forall j :: 0 <= j < |lbs| && j != cl ==> lbs[j].View() == old(lbs[j].View());
  }

  /** One round of the matching loop. */
  method PlaceIngress(
    lbs: seq<LoadBalancer>, cl: nat, certs: seq<CertificateSummary>, certsPerALB: int, ingress: Ingress, now: Time)
    returns (r: seq<LoadBalancer>)
    requires NoDuplicates(lbs) && cl < |lbs|
    modifies lbs
    ensures NoDuplicates(r) && lbs <= r && forall i :: |lbs| <= i < |r| ==> fresh(r[i])
    ensures Views(r) == Place(old(Views(lbs)), cl, Request(ingress, Resolve(certs, ingress, now)), certsPerALB)
  {
    hide Eligible, Balancer.Add, Balancer.AddLocal, Resolve, NewBalancer;
    r := lbs;
    if ingress.clusterLocal {
      PlaceClusterLocal(lbs, cl, ingress);
      return;
    }
    var certificateARNs := FindCertificates(certs, ingress, now);
    if certificateARNs.None? {
      return;
    }
    var at := OfferInTurn(lbs, certificateARNs.value, ingress, certsPerALB);
    if at.None? {
      r := AppendNew(lbs, NewBalancer(Elements(certificateARNs.value), ingress));
    }
  }

  method AppendNew(lbs: seq<LoadBalancer>, b: Balancer) returns (r: seq<LoadBalancer>)
    requires NoDuplicates(lbs)
    ensures NoDuplicates(r) && lbs <= r && forall i :: |lbs| <= i < |r| ==> fresh(r[i])
    ensures Views(r) == old(Views(lbs)) + [b]
  {
    var lb := new LoadBalancer(b);
    assert forall j :: 0 <= j < |lbs| ==> lbs[j].View() == old(lbs[j].View());
    r := lbs + [lb];
  }

  lemma PlaceAllStep(start: seq<Balancer>, cl: nat, requests: seq<Request>, i: nat, maxCerts: int)
    requires cl < |start| && i < |requests|
    ensures PlaceAll(start, cl, requests[..i + 1], maxCerts) ==
            Place(PlaceAll(start, cl, requests[..i], maxCerts), cl, requests[i], maxCerts)
  {
    assert requests[..i + 1][..i] == requests[..i];
  }

  method MatchIngressesToLoadBalancers(
    existing: seq<LoadBalancer>, certs: seq<CertificateSummary>, certsPerALB: int, ingresses: seq<Ingress>, now: Time)
    returns (loadBalancers: seq<LoadBalancer>)
    requires NoDuplicates(existing)
    modifies existing
    ensures NoDuplicates(loadBalancers) && existing <= loadBalancers
    ensures forall i :: |existing| <= i < |loadBalancers| ==> fresh(loadBalancers[i])
    ensures Views(loadBalancers) == Match(old(Views(existing)), certs, certsPerALB, ingresses, now)
  {
    hide Place, Resolve;
    loadBalancers := AppendNew(existing, ClusterLocalBalancer());
    ghost var start := Views(loadBalancers);
    ghost var requests := Requests(certs, ingresses, now);
    for i := 0 to |ingresses|
      invariant NoDuplicates(loadBalancers) && existing <= loadBalancers && |existing| < |loadBalancers|
      invariant forall j :: |existing| <= j < |loadBalancers| ==> fresh(loadBalancers[j])
      invariant Views(loadBalancers) == PlaceAll(start, |existing|, requests[..i], certsPerALB)
    {
      PlaceAllStep(start, |existing|, requests, i, certsPerALB);
      loadBalancers := PlaceIngress(loadBalancers, |existing|, certs, certsPerALB, ingresses[i], now);
    }
    assert requests[..|ingresses|] == requests;
  }
}
