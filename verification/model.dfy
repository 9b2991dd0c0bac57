/** Building the model of one cycle from what was listed (worker.go). */
module Model {
  import opened Text
  import opened Clock
  import opened Sorting
  import opened Alarms
  import opened Stacks
  import opened Certificates
  import opened LoadBalancers
  import opened Matching

  datatype StackLBState = StackLBState(stack: Stack, state: Option<LoadBalancerState>)

  /** More certificates first, then by name. */
  predicate Before(a: StackLBState, b: StackLBState) {
    var m, n := |a.stack.certificateARNs|, |b.stack.certificateARNs|;
    if m == n then Le(a.stack.name, b.stack.name) else m > n
  }

  ghost predicate DistinctNames(stacks: seq<StackLBState>) {
    forall a, b :: a in stacks && b in stacks && a.stack.name == b.stack.name ==> a == b
  }

  lemma BeforeIsLinear()
    ensures Preorder(Before)
    ensures forall stacks :: DistinctNames(stacks) ==> Separates(Before, stacks)
  {
    LeIsLinear();
    forall x: StackLBState, y: StackLBState | Before(x, y) && Before(y, x) ensures x.stack.name == y.stack.name {
      LeAntisymmetric(x.stack.name, y.stack.name);
    }
  }

  function SortedStacks(stacks: seq<StackLBState>): seq<StackLBState> {
    Sort(Before, stacks)
  }

  lemma SortedStacksAreSorted(stacks: seq<StackLBState>)
    ensures SortedBy(Before, SortedStacks(stacks)) && multiset(SortedStacks(stacks)) == multiset(stacks)
    ensures |SortedStacks(stacks)| == |stacks|
  {
    BeforeIsLinear();
    SortSorts(Before, stacks);
    assert |SortedStacks(stacks)| == |multiset(SortedStacks(stacks))| == |multiset(stacks)| == |stacks|;
  }

  /** Stacks with more certificates come first, and among equals the one with the lesser name. */
  lemma FullerStacksComeFirst(stacks: seq<StackLBState>, i: nat, j: nat)
    requires i < j < |stacks|
    ensures |SortedStacks(stacks)| == |stacks|
    ensures var a, b := SortedStacks(stacks)[i].stack, SortedStacks(stacks)[j].stack;
            && |a.certificateARNs| >= |b.certificateARNs|
            && (|a.certificateARNs| == |b.certificateARNs| ==> Le(a.name, b.name))
  {
    SortedStacksAreSorted(stacks);
    hide SortedStacks, Le;
  }

  method SortStacks(stackLBStates: array<StackLBState>)
    modifies stackLBStates
    ensures SortedBy(Before, stackLBStates[..]) && multiset(stackLBStates[..]) == multiset(old(stackLBStates[..]))
    ensures stackLBStates[..] == SortedStacks(old(stackLBStates[..]))
  {
    var sorted := SortedStacks(stackLBStates[..]);
    SortedStacksAreSorted(stackLBStates[..]);
    hide SortedStacks, SortedBy, Before;
    for i := 0 to stackLBStates.Length
      invariant forall j :: 0 <= j < i ==> stackLBStates[j] == sorted[j]
    {
      stackLBStates[i] := sorted[i];
    }
    assert stackLBStates[..] == sorted;
  }

  /** The recorded certificates that are still available. */
  function Available(certs: seq<CertificateSummary>, recorded: map<string, Time>): map<string, Time> {
    map arn | arn in recorded && CertificateExists(certs, arn) :: recorded[arn]
  }

  /** The load balancer of an existing stack, before any ingress is placed on it. */
  function BalancerOf(certs: seq<CertificateSummary>, certTTL: Duration, sl: StackLBState): Balancer {
    var existing := Available(certs, sl.stack.certificateARNs);
    Balancer(
      ingresses := map arn | arn in existing :: [],
      scheme := sl.stack.scheme,
      stack := Some(sl.stack),
      state := sl.state,
      existingStackCertificateARNs := existing,
      shared := sl.stack.ownerIngress == "",
      http2 := sl.stack.http2,
      clusterLocal := false,
      securityGroup := sl.stack.securityGroup,
      sslPolicy := sl.stack.sslPolicy,
      ipAddressType := sl.stack.ipAddressType,
      wafWebACLID := sl.stack.wafWebACLID,
      certTTL := certTTL,
      cwAlarms := AlarmList([], ""),
      loadBalancerType := sl.stack.loadBalancerType)
  }

  function BalancersOf(certs: seq<CertificateSummary>, certTTL: Duration, stacks: seq<StackLBState>): (r: seq<Balancer>)
    ensures |r| == |stacks| && forall i :: 0 <= i < |r| ==> r[i] == BalancerOf(certs, certTTL, stacks[i])
  {
    seq(|stacks|, i requires 0 <= i < |stacks| => BalancerOf(certs, certTTL, stacks[i]))
  }

  method GetAllLoadBalancers(certs: seq<CertificateSummary>, certTTL: Duration, stackLBStates: seq<StackLBState>)
    returns (loadBalancers: seq<LoadBalancer>)
    ensures NoDuplicates(loadBalancers) && forall i :: 0 <= i < |loadBalancers| ==> fresh(loadBalancers[i])
    ensures Views(loadBalancers) == BalancersOf(certs, certTTL, stackLBStates)
  {
    hide BalancerOf;
    loadBalancers := [];
    for i := 0 to |stackLBStates|
      invariant |loadBalancers| == i && NoDuplicates(loadBalancers)
      invariant forall j :: 0 <= j < i ==> fresh(loadBalancers[j])
      invariant forall j :: 0 <= j < i ==> loadBalancers[j].View() == BalancerOf(certs, certTTL, stackLBStates[j])
    {
      var lb := new LoadBalancer(BalancerOf(certs, certTTL, stackLBStates[i]));
      loadBalancers := loadBalancers + [lb];
    }
  }

  function WithAlarms(lbs: seq<Balancer>, cwAlarms: AlarmList): (r: seq<Balancer>)
    ensures |r| == |lbs| && forall i :: 0 <= i < |r| ==> r[i] == lbs[i].(cwAlarms := cwAlarms)
  {
    seq(|lbs|, i requires 0 <= i < |lbs| => lbs[i].(cwAlarms := cwAlarms))
  }

  method AttachCloudWatchAlarms(loadBalancers: seq<LoadBalancer>, cwAlarms: AlarmList)
    requires NoDuplicates(loadBalancers)
    modifies loadBalancers
    ensures Views(loadBalancers) == WithAlarms(old(Views(loadBalancers)), cwAlarms)
  {
    ghost var before := Views(loadBalancers);
    for i := 0 to |loadBalancers|
      invariant forall j :: 0 <= j < |loadBalancers| ==>
        loadBalancers[j].View() == if j < i then before[j].(cwAlarms := cwAlarms) else before[j]
    {
      loadBalancers[i].cwAlarms := cwAlarms;
    }
  }

  function WithGlobalWAF(ingresses: seq<Ingress>, globalWAFACL: string): (r: seq<Ingress>)
    ensures |r| == |ingresses|
  {
    seq(|ingresses|, i requires 0 <= i < |ingresses| =>
      if ingresses[i].wafWebACLID != "" then ingresses[i] else ingresses[i].(wafWebACLID := globalWAFACL))
  }

  /** With a global WAF every ingress has one, its own if it has one; nothing else changes. */
  lemma GlobalWAFReachesAll(ingresses: seq<Ingress>, globalWAFACL: string, i: nat)
    requires i < |ingresses|
    ensures var r := WithGlobalWAF(ingresses, globalWAFACL)[i];
            && r == ingresses[i].(wafWebACLID := r.wafWebACLID)
            && (ingresses[i].wafWebACLID != "" ==> r == ingresses[i])
            && (globalWAFACL != "" ==> r.wafWebACLID != "")
    ensures WithGlobalWAF(WithGlobalWAF(ingresses, globalWAFACL), globalWAFACL) == WithGlobalWAF(ingresses, globalWAFACL)
  {
  }

  method AttachGlobalWAFACL(ings: array<Ingress>, globalWAFACL: string)
    modifies ings
    ensures ings[..] == WithGlobalWAF(old(ings[..]), globalWAFACL)
  {
    ghost var goal := WithGlobalWAF(ings[..], globalWAFACL);
    for i := 0 to ings.Length
      invariant forall j :: 0 <= j < ings.Length ==> ings[j] == if j < i then goal[j] else old(ings[j])
    {
      if ings[i].wafWebACLID != "" {
        continue;
      }
      ings[i] := ings[i].(wafWebACLID := globalWAFACL);
    }
  }

  /** What a cycle is configured with and has listed. */
  datatype Listing = Listing(
    certs: seq<CertificateSummary>,
    certsPerALB: int,
    certTTL: Duration,
    ingresses: seq<Ingress>,
    stacks: seq<StackLBState>,
    cwAlarms: AlarmList,
    globalWAFACL: string,
    now: Time)
  {
    function Requests(): seq<Request> {
      Matching.Requests(certs, WithGlobalWAF(ingresses, globalWAFACL), now)
    }

    /** The load balancers before any ingress is placed. */
    function Start(): seq<Balancer> {
      BalancersOf(certs, certTTL, SortedStacks(stacks)) + [ClusterLocalBalancer()]
    }

    /** The model, before the alarms are attached. */
    function Placed(): seq<Balancer> {
      PlaceAll(Start(), |Start()| - 1, Requests(), certsPerALB)
    }

    function Model(): seq<Balancer> {
      WithAlarms(Placed(), cwAlarms)
    }
  }

  method BuildManagedModel(
    certs: seq<CertificateSummary>, certsPerALB: int, certTTL: Duration, ingresses: array<Ingress>,
    stackLBStates: array<StackLBState>, cwAlarms: AlarmList, globalWAFACL: string, now: Time)
    returns (model: seq<LoadBalancer>)
    modifies ingresses, stackLBStates
    ensures Views(model) ==
            Listing(certs, certsPerALB, certTTL, old(ingresses[..]), old(stackLBStates[..]), cwAlarms, globalWAFACL, now).Model()
  {
    hide WithGlobalWAF, SortedStacks, BalancersOf, PlaceAll, WithAlarms, Views;
    ghost var listing :=
      Listing(certs, certsPerALB, certTTL, ingresses[..], stackLBStates[..], cwAlarms, globalWAFACL, now);
    SortStacks(stackLBStates);
    AttachGlobalWAFACL(ingresses, globalWAFACL);
    model := GetAllLoadBalancers(certs, certTTL, stackLBStates[..]);
    model := MatchIngressesToLoadBalancers(model, certs, certsPerALB, ingresses[..], now);
    assert Views(model) == listing.Placed();
    AttachCloudWatchAlarms(model, cwAlarms);
  }

  /** With distinct stack names the model does not depend on the order in which the
      stacks were listed. (The order in which an ingress's certificates are found does
      not enter the model at all.) */
  lemma ModelIgnoresOrder(a: Listing, b: Listing)
    requires b == a.(stacks := b.stacks)
    requires multiset(a.stacks) == multiset(b.stacks) && DistinctNames(a.stacks)
    ensures a.Model() == b.Model()
  {
    BeforeIsLinear();
    SortIgnoresOrder(Before, a.stacks, b.stacks);
  }
}
