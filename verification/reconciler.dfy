/** The controller and its stacks as a state machine (worker.go, aws/adapter.go,
    aws/cf.go). The only memory from one cycle to the next is what the stacks record.

    A cycle lists everything, builds its model and then acts on one load balancer after
    the other. In between, time passes and CloudFormation finishes, fails and rolls back
    what it was asked for; any request may be rejected, and the controller may restart.
  */
module Reconciler {
  import opened Text
  import opened Clock
  import opened Stacks
  import opened Certificates
  import opened LoadBalancers
  import opened Matching
  import opened Model
  import opened Placements
  import opened Packing

  /** What the controller is configured with. */
  datatype Config = Config(
    clusterID: string,
    controllerID: string,
    vpcID: string,
    healthCheck: HealthCheck,
    targetType: string,
    targetPort: nat,
    targetHTTPS: bool,
    albHTTPTargetPort: nat,
    nlbHTTPTargetPort: nat,
    nlbHTTPEnabled: bool,
    sslPolicy: string,
    sslPolicies: set<string>,
    albLogsS3Bucket: string,
    albLogsS3Prefix: string,
    httpRedirectToHTTPS: bool,
    denyInternalDomains: bool,
    denyInternalDomainsResponse: DenyResponse,
    internalDomains: seq<string>,
    stackTags: map<string, string>,
    certsPerALB: int,
    certTTL: Duration,
    globalWAFACL: string)
  {
    function HTTPTargetPort(loadBalancerType: string): nat {
      if loadBalancerType == LOAD_BALANCER_TYPE_APPLICATION && albHTTPTargetPort != 0 then albHTTPTargetPort
      else if loadBalancerType == LOAD_BALANCER_TYPE_NETWORK && nlbHTTPTargetPort != 0 then nlbHTTPTargetPort
      else targetPort
    }

    predicate HTTPDisabled(loadBalancerType: string) {
      loadBalancerType == LOAD_BALANCER_TYPE_NETWORK && !nlbHTTPEnabled
    }

    /** The stack that is asked for on behalf of lb. */
    function Spec(
      name: string, certificateARNs: map<string, Time>, lb: Balancer, owner: string, sslPolicy: string,
      subnets: seq<string>): StackSpec
    {
      StackSpec(
        name := name,
        scheme := lb.scheme,
        ownerIngress := owner,
        subnets := subnets,
        certificateARNs := certificateARNs,
        securityGroupID := lb.securityGroup,
        clusterID := clusterID,
        vpcID := vpcID,
        healthCheck := Some(healthCheck),
        targetPort := targetPort,
        targetHTTPS := targetHTTPS,
        targetType := targetType,
        httpDisabled := HTTPDisabled(lb.loadBalancerType),
        httpTargetPort := HTTPTargetPort(lb.loadBalancerType),
        controllerID := controllerID,
        sslPolicy := sslPolicy,
        ipAddressType := lb.ipAddressType,
        loadBalancerType := lb.loadBalancerType,
        albLogsS3Bucket := albLogsS3Bucket,
        albLogsS3Prefix := albLogsS3Prefix,
        wafWebACLID := lb.wafWebACLID,
        cwAlarms := lb.cwAlarms,
        httpRedirectToHTTPS := httpRedirectToHTTPS,
        http2 := lb.http2,
        denyInternalDomains := denyInternalDomains,
        denyInternalDomainsResponse := denyInternalDomainsResponse,
        internalDomains := internalDomains,
        tags := stackTags)
    }

    /** A new stack requires every certificate of the load balancer. */
    function CreateSpec(name: string, lb: Balancer, owner: string, subnets: seq<string>): StackSpec {
      Spec(name, map arn | arn in lb.ingresses :: ZERO, lb, owner,
           if lb.sslPolicy == "" then sslPolicy else lb.sslPolicy, subnets)
    }

    function UpdateSpec(name: string, lb: Balancer, now: Time, owner: string, subnets: seq<string>): StackSpec {
      Spec(name, lb.CertificateARNs(now), lb, owner, lb.sslPolicy, subnets)
    }
  }

  /** A stack and what CloudFormation would roll it back to. */
  datatype Record = Record(cf: CfStack, saved: CfStack)

  /** pending are the load balancers that the running cycle has still to act on, listed
      the certificates that it has found available; used are all stack names ever taken. */
  datatype World = World(
    clock: Time,
    stacks: map<string, Record>,
    used: set<string>,
    firstRun: bool,
    pending: seq<Balancer>,
    listed: set<string>)

  datatype Step =
    | Tick
    | Settle(name: string, status: StackStatus, outputs: seq<KeyValue>)
    | RollBack(name: string)
    | Vanish(name: string)
    | StartCycle(listing: Listing)
    | Act(cf: CfStack, owner: string, subnets: seq<string>, accepted: bool)
    | EndCycle
    | Restart

  /** How the status of a stack changes by itself without changing its configuration. */
  predicate Settles(from: StackStatus, to: StackStatus) {
    match from
    case CreateInProgress => to.CreateComplete? || to.RollbackInProgress?
    case RollbackInProgress => to.RollbackComplete?
    case UpdateInProgress => to.UpdateCompleteCleanupInProgress? || to.UpdateComplete? || to.Failed?
    case UpdateCompleteCleanupInProgress => to.UpdateComplete?
    case UpdateRollbackInProgress => to.UpdateRollbackComplete? || to.Failed?
    case DeleteInProgress => to.Failed?
    case _ => false
  }

  /** The stack may disappear: it is being deleted, or its creation has not succeeded. */
  predicate GoingAway(status: StackStatus) {
    status.CreateInProgress? || status.RollbackInProgress? || status.DeleteInProgress? || status.DeleteComplete?
  }

  // The steps of CloudFormation.

  ghost predicate Settled(w: World, w': World, name: string, status: StackStatus, outputs: seq<KeyValue>) {
    && name in w.stacks && Settles(w.stacks[name].cf.status, status)
    && var cf := w.stacks[name].cf.(status := status, outputs := outputs);
       var saved := if status.Complete() then cf else w.stacks[name].saved;
       w' == w.(stacks := w.stacks[name := Record(cf, saved)])
  }

  ghost predicate RolledBack(w: World, w': World, name: string) {
    && name in w.stacks && w.stacks[name].cf.status.UpdateInProgress?
    && var record := w.stacks[name];
       w' == w.(stacks := w.stacks[name := record.(cf := record.saved.(status := UpdateRollbackInProgress))])
  }

  ghost predicate Vanished(w: World, w': World, name: string) {
    && name in w.stacks && GoingAway(w.stacks[name].cf.status)
    && w' == w.(stacks := w.stacks - {name})
  }

  // The steps of the controller.

  /** The stacks are listed in some order; each managed one is listed once. */
  ghost predicate Lists(config: Config, stacks: map<string, Record>, listed: seq<StackLBState>) {
    && DistinctNames(listed) && NoDuplicates(listed)
    && (forall sl :: sl in listed ==> ListedFrom(config, stacks, sl))
    && (forall name :: name in stacks && IsManagedStack(stacks[name].cf.tags, config.clusterID, config.controllerID) ==>
          exists sl :: sl in listed && sl.stack.name == name)
  }

  ghost predicate ListedFrom(config: Config, stacks: map<string, Record>, sl: StackLBState) {
    && sl.stack.name in stacks
    && IsManagedStack(stacks[sl.stack.name].cf.tags, config.clusterID, config.controllerID)
    && Reads(sl.stack, stacks[sl.stack.name].cf)
  }

  /** A cycle starts if all listings succeed and there are certificates. */
  ghost predicate Started(config: Config, w: World, w': World, listing: Listing) {
    && w.pending == [] && listing.certs != []
    && listing.certsPerALB == config.certsPerALB && listing.certTTL == config.certTTL
    && listing.globalWAFACL == config.globalWAFACL && listing.now == w.clock
    && Lists(config, w.stacks, listing.stacks)
    && w' == w.(pending := listing.Model(), listed := set c | c in listing.certs :: c.id)
  }

  ghost predicate Creates(
    config: Config, before: map<string, Record>, used: set<string>, after: map<string, Record>, lb: Balancer, cf: CfStack,
    owner: string, subnets: seq<string>)
  {
    var spec := config.CreateSpec(cf.name, lb, owner, subnets);
    && cf.name !in used && cf.status.CreateInProgress?
    && lb.MayBeOwner(owner) && spec.sslPolicy in config.sslPolicies
    && WrittenFrom(cf, spec)
    && after == before[cf.name := Record(cf, cf)]
  }

  ghost predicate Updates(
    config: Config, before: map<string, Record>, after: map<string, Record>, lb: Balancer, now: Time, cf: CfStack,
    owner: string, subnets: seq<string>)
  {
    && lb.stack.Some? && lb.stack.value.name in before
    && var name, record := lb.stack.value.name, before[lb.stack.value.name];
       var spec := config.UpdateSpec(name, lb, now, owner, subnets);
       && !GoingAway(record.cf.status)
       && cf.name == record.cf.name && cf.status.UpdateInProgress? && cf.outputs == record.cf.outputs
       && lb.MayBeOwner(owner) && spec.sslPolicy in config.sslPolicies
       && WrittenFrom(cf, spec)
       && after == before[name := record.(cf := cf)]
  }

  ghost predicate Deletes(before: map<string, Record>, after: map<string, Record>, lb: Balancer) {
    && lb.stack.Some? && lb.stack.value.name in before
    && var name, record := lb.stack.value.name, before[lb.stack.value.name];
       after == before[name := record.(cf := record.cf.(status := DeleteInProgress))]
  }

  /** The next load balancer of the cycle is dealt with. Its status is decided at the
      time of w, and the request is made at the time of w'. */
  ghost predicate Acted(
    config: Config, w: World, w': World, cf: CfStack, owner: string, subnets: seq<string>, accepted: bool)
  {
    && w.pending != [] && w.pending[0].Grounded() && w.clock <= w'.clock
    && w' == w.(clock := w'.clock, stacks := w'.stacks, used := w'.used, pending := w.pending[1..])
    && var lb := w.pending[0];
       match if accepted then lb.Status(w.clock, w.firstRun) else Ready
       case Ready => w'.stacks == w.stacks && w'.used == w.used
       case Delete => Deletes(w.stacks, w'.stacks, lb) && w'.used == w.used
       case Missing => Creates(config, w.stacks, w.used, w'.stacks, lb, cf, owner, subnets) && w'.used == w.used + {cf.name}
       case Update => Updates(config, w.stacks, w'.stacks, lb, w'.clock, cf, owner, subnets) && w'.used == w.used
  }

  ghost predicate Next(config: Config, w: World, w': World, step: Step) {
    match step
    case Tick => w.clock <= w'.clock && w' == w.(clock := w'.clock)
    case Settle(name, status, outputs) => Settled(w, w', name, status, outputs)
    case RollBack(name) => RolledBack(w, w', name)
    case Vanish(name) => Vanished(w, w', name)
    case StartCycle(listing) => Started(config, w, w', listing)
    case Act(cf, owner, subnets, accepted) => Acted(config, w, w', cf, owner, subnets, accepted)
    case EndCycle => w.pending == [] && w' == w.(firstRun := false)
    case Restart => w' == w.(pending := [], firstRun := true)
  }

  datatype Run = Run(worlds: seq<World>, steps: seq<Step>) {
    ghost predicate Of(config: Config) {
      && |worlds| == |steps| + 1
      && forall i :: 0 <= i < |steps| ==> Next(config, worlds[i], worlds[i + 1], steps[i])
    }
  }

  lemma {:induction false} TimePasses(config: Config, run: Run, i: nat, j: nat)
    requires run.Of(config) && i <= j < |run.worlds|
    ensures run.worlds[i].clock <= run.worlds[j].clock
  {
    if i < j {
      TimePasses(config, run, i, j - 1);
      assert Next(config, run.worlds[j - 1], run.worlds[j], run.steps[j - 1]);
    }
  }
}
