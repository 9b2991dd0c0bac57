/** What is to be done with each load balancer, and what a whole cycle achieves (worker.go,
    aws/cf.go): said of what the stacks record and of the ingresses placed, and of the
    stacks as the cycle leaves them. */
module Decisions {
  import opened Text
  import opened Clock
  import opened Sorting
  import opened Alarms
  import opened Stacks
  import opened Certificates
  import opened LoadBalancers
  import opened Matching
  import opened Model
  import opened Placements
  import opened Packing
  import opened Reconciler
  import opened GracePeriods
  import opened Safety
  import opened Convergence
  import opened Worker
  import opened Resolution

  // The decision.

  /** Some ingress that is placed here needs the certificate. */
  predicate InUse(lb: Balancer, arn: string) {
    Under(lb.ingresses, arn) != []
  }

  /** What is recorded for the certificate is not what is needed now: a certificate in use is
      to be recorded as required; any other one that is available is to have a deadline, and
      is to disappear once that has passed; one that is not available is to disappear. */
  predicate Outdated(recorded: map<string, Time>, certs: seq<CertificateSummary>, lb: Balancer, arn: string, now: Time) {
    if InUse(lb, arn) then arn !in recorded || recorded[arn] != 0
    else
      && arn in recorded
      && (!CertificateExists(certs, arn) || if recorded[arn] == 0 then now + lb.certTTL != 0 else recorded[arn] <= now)
  }

  /** The stack's record is not what the model asks for. */
  ghost predicate OutOfDate(listing: Listing, lb: Balancer, now: Time)
    requires lb.stack.Some?
  {
    var stack := lb.stack.value;
    || (exists arn :: Outdated(stack.certificateARNs, listing.certs, lb, arn, now))
    || stack.cwAlarmConfigHash != (if listing.cwAlarms.alarms == [] then "" else listing.cwAlarms.digest)
    || stack.wafWebACLID != lb.wafWebACLID
    || stack.sslPolicy != lb.sslPolicy
  }

  /** Every certificate recorded has a deadline, and it has passed. */
  ghost predicate Due(stack: Stack, now: Time) {
    forall arn :: arn in stack.certificateARNs ==> 0 < stack.certificateARNs[arn] <= now
  }

  predicate HasSettled(stack: Stack) {
    stack.status in {CreateComplete, UpdateComplete, RollbackComplete, UpdateRollbackComplete}
  }

  lemma CertificatesAgree(lb: Balancer, certs: seq<CertificateSummary>, now: Time)
    requires lb.stack.Some? && lb.existingStackCertificateARNs == Available(certs, lb.stack.value.certificateARNs)
    ensures lb.CertificateARNs(now) == lb.stack.value.certificateARNs <==>
            forall arn :: !Outdated(lb.stack.value.certificateARNs, certs, lb, arn, now)
  {
    var recorded, wanted := lb.stack.value.certificateARNs, lb.CertificateARNs(now);
    forall arn ensures Outdated(recorded, certs, lb, arn, now) <==>
      (arn in recorded) != (arn in wanted) || (arn in recorded && recorded[arn] != wanted[arn])
    {
      assert arn in lb.Required() <==> InUse(lb, arn);
    }
    if forall arn :: !Outdated(recorded, certs, lb, arn, now) {
      assert recorded.Keys == wanted.Keys by {
        forall arn ensures arn in recorded <==> arn in wanted {
          assert !Outdated(recorded, certs, lb, arn, now);
        }
      }
      forall arn | arn in recorded ensures recorded[arn] == wanted[arn] {
        assert !Outdated(recorded, certs, lb, arn, now);
      }
    }
  }

  lemma ModelAlarms(listing: Listing, k: nat)
    requires k < |listing.Model()|
    ensures listing.Model()[k].cwAlarms == listing.cwAlarms
  {
    hide Listing.Placed;
  }

  /** What is to be done with the k-th load balancer of the model. */
  lemma StatusIsDecided(listing: Listing, k: nat, now: Time, firstRun: bool)
    requires k < |listing.Model()|
    ensures var lb := listing.Model()[k];
            && lb.Grounded()
            && (lb.Status(now, firstRun) == Missing <==> !lb.clusterLocal && lb.stack.None?)
            && (lb.Status(now, firstRun) == Delete <==> lb.stack.Some? && Due(lb.stack.value, now))
            && (lb.Status(now, firstRun) == Update <==>
                  && lb.stack.Some? && !Due(lb.stack.value, now)
                  && (firstRun || (HasSettled(lb.stack.value) && OutOfDate(listing, lb, now))))
  {
    var lb := listing.Model()[k];
    ModelIsSound(listing);
    ModelAlarms(listing, k);
    hide Listing.Model, Balancer.CertificateARNs, Outdated;
    if lb.stack.Some? {
      var sl := ModelStack(listing, k);
      CertificatesAgree(lb, listing.certs, now);
    }
  }

  // What a turn of the cycle leaves behind.

  /** The stack records the certificate as required. (In the format before the present one
      that is what naming it means.) */
  ghost predicate RecordedAsRequired(cf: CfStack, arn: string) {
    var recorded := RecordedCertificates(ToMap(cf.tags));
    arn in recorded && (recorded[arn] == 0 || Lookup(ToMap(cf.tags), CERTIFICATE_ARN_TAG_LEGACY) == Some(arn))
  }

  /** The stack records a deadline for the certificate. */
  ghost predicate RecordedWithDeadline(cf: CfStack, arn: string) {
    var recorded := RecordedCertificates(ToMap(cf.tags));
    arn in recorded && recorded[arn] != 0
  }

  /** The stack records the certificates in use as required, of the others only available
      ones and with a deadline, and the settings of the model. */
  ghost predicate UpToDate(cf: CfStack, lb: Balancer, certs: seq<CertificateSummary>, sslPolicy: string) {
    && (forall arn :: InUse(lb, arn) ==> RecordedAsRequired(cf, arn))
    && (forall arn :: arn in CertificateKeys(ToMap(cf.tags)) && !InUse(lb, arn) ==>
          RecordedWithDeadline(cf, arn) && CertificateExists(certs, arn))
    && GetOr(ToMap(cf.tags), CW_ALARM_CONFIG_HASH_TAG) == lb.cwAlarms.Hash()
    && GetOr(ToMap(cf.parameters), PARAMETER_WAF) == lb.wafWebACLID
    && GetOr(ToMap(cf.parameters), PARAMETER_SSL_POLICY) == sslPolicy
  }

  /** lb was built from the stack that cf records. */
  ghost predicate BuiltFrom(config: Config, lb: Balancer, cf: CfStack, certs: seq<CertificateSummary>) {
    && lb.stack.Some? && !lb.clusterLocal && lb.certTTL == config.certTTL
    && lb.existingStackCertificateARNs == Available(certs, lb.stack.value.certificateARNs)
    && Reads(lb.stack.value, cf)
  }

  lemma InSyncIsUpToDate(config: Config, lb: Balancer, cf: CfStack, certs: seq<CertificateSummary>, now: Time)
    requires BuiltFrom(config, lb, cf, certs) && lb.InSync(now) && now + config.certTTL > 0
    ensures UpToDate(cf, lb, certs, lb.sslPolicy)
  {
    var stack, recorded := lb.stack.value, RecordedCertificates(ToMap(cf.tags));
    assert recorded.Keys == CertificateKeys(ToMap(cf.tags)) == stack.certificateARNs.Keys;
    CertificatesAgree(lb, certs, now);
    hide CertificateKeys, RecordedCertificates, Balancer.CertificateARNs;
    forall arn | arn in recorded
      ensures if InUse(lb, arn) then RecordedAsRequired(cf, arn) else RecordedWithDeadline(cf, arn) && CertificateExists(certs, arn)
    {
      assert !Outdated(stack.certificateARNs, certs, lb, arn, now);
    }
    forall arn | InUse(lb, arn) ensures arn in recorded {
      assert !Outdated(stack.certificateARNs, certs, lb, arn, now);
    }
  }

  lemma RecordedKeys(tags: map<string, string>)
    ensures RecordedCertificates(tags).Keys == CertificateKeys(tags)
  {
  }

  lemma WantedTimes(lb: Balancer, certs: seq<CertificateSummary>, now: Time, arn: string)
    requires lb.stack.Some? && lb.existingStackCertificateARNs == Available(certs, lb.stack.value.certificateARNs)
    requires now + lb.certTTL >= SECOND
    requires var recorded := lb.stack.value.certificateARNs; arn in recorded ==> Truncate(recorded[arn]) == recorded[arn]
    ensures var wanted := lb.CertificateARNs(now);
            && (InUse(lb, arn) ==> arn in wanted && wanted[arn] == 0)
            && (arn in wanted && !InUse(lb, arn) ==> Truncate(wanted[arn]) != 0 && CertificateExists(certs, arn))
  {
    assert arn in lb.Required() <==> InUse(lb, arn);
  }

  lemma WrittenRecord(config: Config, lb: Balancer, now: Time, after: CfStack, owner: string, subnets: seq<string>)
    requires lb.stack.Some? && AvoidsReservedTags(config.stackTags)
    requires WrittenFrom(after, config.UpdateSpec(lb.stack.value.name, lb, now, owner, subnets))
    ensures RecordedCertificates(ToMap(after.tags)) == TruncateAll(lb.CertificateARNs(now))
    ensures GetOr(ToMap(after.tags), CW_ALARM_CONFIG_HASH_TAG) == lb.cwAlarms.Hash()
    ensures GetOr(ToMap(after.parameters), PARAMETER_WAF) == lb.wafWebACLID
    ensures GetOr(ToMap(after.parameters), PARAMETER_SSL_POLICY) == lb.sslPolicy
  {
    var spec := config.UpdateSpec(lb.stack.value.name, lb, now, owner, subnets);
    RecordedCertificatesRoundTrip(after, spec);
    hide RecordedCertificates;
    StackStateRoundTrip(after, spec);
  }

  lemma WrittenIsUpToDate(
    config: Config, lb: Balancer, cf: CfStack, certs: seq<CertificateSummary>, now: Time, after: CfStack, owner: string,
    subnets: seq<string>)
    requires BuiltFrom(config, lb, cf, certs) && AvoidsReservedTags(config.stackTags)
    requires WrittenFrom(after, config.UpdateSpec(lb.stack.value.name, lb, now, owner, subnets))
    requires now + config.certTTL >= SECOND
    ensures UpToDate(after, lb, certs, lb.sslPolicy)
  {
    hide CertificateKeys, RecordedCertificates, WrittenFrom, AvoidsReservedTags, Balancer.CertificateARNs, InUse, Reads,
         ToMap, Available, CertificateExists, Config.UpdateSpec, AlarmList.Hash;
    WrittenRecord(config, lb, now, after, owner, subnets);
    RecordedKeys(ToMap(after.tags));
    var wanted := lb.CertificateARNs(now);
    ReadTimesAreWhole(lb.stack.value, cf);
    forall arn ensures InUse(lb, arn) ==> RecordedAsRequired(after, arn)
               ensures arn in wanted && !InUse(lb, arn) ==> RecordedWithDeadline(after, arn) && CertificateExists(certs, arn)
    {
      WantedTimes(lb, certs, now, arn);
    }
  }

  /** The times read off a stack are whole seconds. */
  lemma ReadTimesAreWhole(stack: Stack, cf: CfStack)
    requires Reads(stack, cf)
    ensures forall arn :: arn in stack.certificateARNs ==> Truncate(stack.certificateARNs[arn]) == stack.certificateARNs[arn]
  {
    forall arn | arn in stack.certificateARNs
      ensures Truncate(stack.certificateARNs[arn]) == stack.certificateARNs[arn]
    {
      RecordedTimesAreWhole(ToMap(cf.tags), arn);
    }
  }

  /** The next load balancer has its turn, and its request, if one is called for, is granted. */
  lemma TurnBringsUpToDate(
    config: Config, rejects: set<Worker.Request>, w: World, w': World, step: Step, newName: string, certs: seq<CertificateSummary>)
    requires Next(config, w, w', step) && Dutiful(config, rejects, w, step, newName) && AvoidsReservedTags(config.stackTags)
    requires var lb := w.pending[0];
             && lb.stack.Some? && lb.stack.value.name in w.stacks
             && BuiltFrom(config, lb, w.stacks[lb.stack.value.name].cf, certs)
             && HasSettled(lb.stack.value) && !Due(lb.stack.value, w.clock)
             && lb.sslPolicy in config.sslPolicies && Updating(lb.stack.value.name) !in rejects
    requires w.clock + config.certTTL >= SECOND
    ensures var lb := w.pending[0];
            lb.stack.value.name in w'.stacks && UpToDate(w'.stacks[lb.stack.value.name].cf, lb, certs, lb.sslPolicy)
  {
    hide UpToDate, WrittenFrom, Balancer.InSync, AvoidsReservedTags, Reads, Config.UpdateSpec, Balancer.MayBeOwner, Creates;
    var lb := w.pending[0];
    var name, record := lb.stack.value.name, w.stacks[lb.stack.value.name];
    assert record.cf.status == lb.stack.value.status by { ReadStatus(lb.stack.value, record.cf); }
    if lb.Status(w.clock, w.firstRun) == Update {
      WrittenIsUpToDate(config, lb, record.cf, certs, w'.clock, w'.stacks[name].cf, step.owner, step.subnets);
    } else {
      InSyncIsUpToDate(config, lb, record.cf, certs, w.clock);
    }
  }

  lemma ReadStatus(stack: Stack, cf: CfStack)
    requires Reads(stack, cf)
    ensures stack.status == cf.status
  {
    hide CertificateKeys, RecordedCertificates;
  }

  /** The next load balancer is a new one, and its stack is created. */
  lemma TurnCreates(
    config: Config, rejects: set<Worker.Request>, w: World, w': World, step: Step, newName: string, certs: seq<CertificateSummary>)
    requires Next(config, w, w', step) && Dutiful(config, rejects, w, step, newName) && AvoidsReservedTags(config.stackTags)
    requires var lb := w.pending[0];
             && lb.stack.None? && !lb.clusterLocal
             && (forall arn :: arn in lb.ingresses ==> InUse(lb, arn))
             && (if lb.sslPolicy == "" then config.sslPolicy else lb.sslPolicy) in config.sslPolicies
             && Creating(newName) !in rejects
    ensures newName !in w.used && newName in w'.used && newName in w'.stacks
    ensures var lb := w.pending[0];
            UpToDate(w'.stacks[newName].cf, lb, certs, if lb.sslPolicy == "" then config.sslPolicy else lb.sslPolicy)
  {
    hide UpToDate, WrittenFrom, AvoidsReservedTags, Config.CreateSpec, Balancer.MayBeOwner;
    var lb := w.pending[0];
    assert lb.Status(w.clock, w.firstRun) == Missing;
    CreatedIsUpToDate(config, lb, step.cf, certs, step.owner, step.subnets);
  }

  /** The next load balancer's stack is due for deletion, and the deletion is asked for. */
  lemma TurnDeletes(
    config: Config, rejects: set<Worker.Request>, w: World, w': World, step: Step, newName: string)
    requires Next(config, w, w', step) && Dutiful(config, rejects, w, step, newName)
    requires var lb := w.pending[0];
             && lb.stack.Some? && !lb.clusterLocal && lb.stack.value.name in w.stacks
             && Due(lb.stack.value, w.clock) && Deleting(lb.stack.value.name) !in rejects
    ensures var name := w.pending[0].stack.value.name;
            name in w'.stacks && w'.stacks[name].cf == w.stacks[name].cf.(status := DeleteInProgress)
  {
    hide Creates, Updates;
    assert w.pending[0].Status(w.clock, w.firstRun) == Delete;
  }

  lemma CreatedIsUpToDate(
    config: Config, lb: Balancer, cf: CfStack, certs: seq<CertificateSummary>, owner: string, subnets: seq<string>)
    requires WrittenFrom(cf, config.CreateSpec(cf.name, lb, owner, subnets)) && AvoidsReservedTags(config.stackTags)
    requires forall arn :: arn in lb.ingresses ==> InUse(lb, arn)
    ensures UpToDate(cf, lb, certs, if lb.sslPolicy == "" then config.sslPolicy else lb.sslPolicy)
  {
    var spec := config.CreateSpec(cf.name, lb, owner, subnets);
    RecordedCertificatesRoundTrip(cf, spec);
    RecordedKeys(ToMap(cf.tags));
    hide RecordedCertificates, CertificateKeys, WrittenFrom, AvoidsReservedTags;
    StackStateRoundTrip(cf, spec);
  }

  // What create and update write.

  /** The parameters and tags of the stack say what the load balancer and the configuration
      say. Plain HTTP gets a port only if its type serves it from one of its own. */
  ghost predicate AsConfigured(config: Config, lb: Balancer, cf: CfStack, owner: string, sslPolicy: string, subnets: seq<string>) {
    var parameters, tags := ToMap(cf.parameters), ToMap(cf.tags);
    var httpPort :=
      if lb.loadBalancerType == "application" then config.albHTTPTargetPort
      else if lb.loadBalancerType == "network" then config.nlbHTTPTargetPort
      else 0;
    && GetOr(parameters, PARAMETER_SCHEME) == lb.scheme
    && GetOr(parameters, PARAMETER_SECURITY_GROUP) == lb.securityGroup
    && GetOr(parameters, PARAMETER_TYPE) == lb.loadBalancerType
    && GetOr(parameters, PARAMETER_IP_ADDRESS_TYPE) == lb.ipAddressType
    && GetOr(parameters, PARAMETER_WAF) == lb.wafWebACLID
    && (GetOr(parameters, PARAMETER_HTTP2) != "false" <==> lb.http2)
    && GetOr(parameters, PARAMETER_SSL_POLICY) == sslPolicy
    && GetOr(parameters, PARAMETER_VPC_ID) == config.vpcID
    && (subnets != [] && (forall subnet :: subnet in subnets ==> ',' !in subnet) ==>
          Split(GetOr(parameters, PARAMETER_SUBNETS), ',') == subnets)
    && ParseDecimal(GetOr(parameters, PARAMETER_TARGET_PORT)) == Some(config.targetPort)
    && (PARAMETER_HTTP_TARGET_PORT in parameters <==>
          (lb.loadBalancerType == "network" ==> config.nlbHTTPEnabled) && httpPort !in {0, config.targetPort})
    && (PARAMETER_HTTP_TARGET_PORT in parameters ==> ParseDecimal(parameters[PARAMETER_HTTP_TARGET_PORT]) == Some(httpPort))
    && GetOr(parameters, PARAMETER_HEALTH_CHECK_PATH) == config.healthCheck.path
    && ParseDecimal(GetOr(parameters, PARAMETER_HEALTH_CHECK_PORT)) == Some(config.healthCheck.port)
    && ParseDecimal(GetOr(parameters, PARAMETER_HEALTH_CHECK_INTERVAL)) == Some(config.healthCheck.intervalSeconds)
    && ParseDecimal(GetOr(parameters, PARAMETER_HEALTH_CHECK_TIMEOUT)) == Some(config.healthCheck.timeoutSeconds)
    && GetOr(tags, INGRESS_OWNER_TAG) == owner
    && GetOr(tags, CW_ALARM_CONFIG_HASH_TAG) == lb.cwAlarms.Hash()
    && IsManagedStack(cf.tags, config.clusterID, config.controllerID)
  }

  lemma WrittenAsConfigured(
    config: Config, name: string, certificateARNs: map<string, Time>, lb: Balancer, cf: CfStack, owner: string, sslPolicy: string,
    subnets: seq<string>)
    requires WrittenFrom(cf, config.Spec(name, certificateARNs, lb, owner, sslPolicy, subnets))
    requires AvoidsReservedTags(config.stackTags)
    ensures AsConfigured(config, lb, cf, owner, sslPolicy, subnets)
  {
    var spec := config.Spec(name, certificateARNs, lb, owner, sslPolicy, subnets);
    assert cf.parameters == WrittenParameters(spec);
    hide WrittenFrom, WrittenParameters, AvoidsReservedTags, IsManagedStack, ToMap, ParseDecimal, Split;
    ParameterRoundTrip(spec);
    HealthCheckRoundTrip(spec);
    HTTPPortRoundTrip(spec);
    TagRoundTrip(cf, spec);
    WrittenStackIsManaged(cf, spec);
    if subnets != [] && forall subnet :: subnet in subnets ==> ',' !in subnet {
      SubnetsRoundTrip(spec);
    }
  }

  lemma ZerosStayZero(ingresses: Assignments)
    ensures var zeros: map<string, Time> := map arn | arn in ingresses :: ZERO; TruncateAll(zeros) == zeros
  {
  }

  /** A created stack is as configured, has a known SSL policy, the default one if the load
      balancer has none, and records the certificates of the load balancer as required. */
  lemma CreatedAsConfigured(
    config: Config, before: map<string, Record>, used: set<string>, after: map<string, Record>, lb: Balancer, cf: CfStack,
    owner: string, subnets: seq<string>)
    requires Creates(config, before, used, after, lb, cf, owner, subnets) && AvoidsReservedTags(config.stackTags)
    ensures var sslPolicy := if lb.sslPolicy == "" then config.sslPolicy else lb.sslPolicy;
            AsConfigured(config, lb, cf, owner, sslPolicy, subnets) && sslPolicy in config.sslPolicies
    ensures RecordedCertificates(ToMap(cf.tags)) == map arn | arn in lb.ingresses :: 0
  {
    hide WrittenFrom, AsConfigured, AvoidsReservedTags, RecordedCertificates, ToMap, Balancer.MayBeOwner, TruncateAll;
    var spec := config.CreateSpec(cf.name, lb, owner, subnets);
    WrittenAsConfigured(config, cf.name, spec.certificateARNs, lb, cf, owner, spec.sslPolicy, subnets);
    RecordedCertificatesRoundTrip(cf, spec);
    ZerosStayZero(lb.ingresses);
  }

  /** An updated stack is as configured, keeps its name, and records each certificate in use as
      required and each retained one until its deadline, up to a second. */
  lemma UpdatedAsConfigured(
    config: Config, before: map<string, Record>, after: map<string, Record>, lb: Balancer, now: Time, cf: CfStack,
    owner: string, subnets: seq<string>)
    requires Updates(config, before, after, lb, now, cf, owner, subnets) && AvoidsReservedTags(config.stackTags)
    ensures AsConfigured(config, lb, cf, owner, lb.sslPolicy, subnets) && lb.sslPolicy in config.sslPolicies
    ensures forall arn :: RecordsRetained(RecordedCertificates(ToMap(cf.tags)), lb, now, arn)
  {
    hide WrittenFrom, AsConfigured, AvoidsReservedTags, RecordedCertificates, ToMap, Balancer.MayBeOwner, Balancer.CertificateARNs;
    var name := lb.stack.value.name;
    var spec := config.UpdateSpec(name, lb, now, owner, subnets);
    WrittenAsConfigured(config, name, spec.certificateARNs, lb, cf, owner, spec.sslPolicy, subnets);
    WrittenRecord(config, lb, now, cf, owner, subnets);
    hide Config.UpdateSpec, Truncate;
    forall arn ensures RecordsRetained(RecordedCertificates(ToMap(cf.tags)), lb, now, arn) {
      RetainedUntilDeadline(lb, now, arn);
    }
  }

  /** A certificate in use is recorded as required, any other one exactly if it is retained. */
  predicate RecordsRetained(recorded: map<string, Time>, lb: Balancer, now: Time, arn: string) {
    var existing := lb.existingStackCertificateARNs;
    if InUse(lb, arn) then arn in recorded && recorded[arn] == 0
    else
      && (arn in recorded <==> arn in existing && (existing[arn] == 0 || existing[arn] > now))
      && (arn in recorded ==> recorded[arn] == Truncate(if existing[arn] == 0 then now + lb.certTTL else existing[arn]))
  }

  lemma RetainedUntilDeadline(lb: Balancer, now: Time, arn: string)
    ensures RecordsRetained(TruncateAll(lb.CertificateARNs(now)), lb, now, arn)
  {
    assert arn in lb.Required() <==> InUse(lb, arn);
  }
}
