/** A certificate that is no longer needed keeps its stack for a grace period, over
    whole runs of the controller (worker.go, aws/cf.go). */
module GracePeriods {
  import opened Text
  import opened Clock
  import opened Sorting
  import opened Stacks
  import opened Certificates
  import opened LoadBalancers
  import opened Matching
  import opened Model
  import opened Placements
  import opened Reconciler

  predicate Concerns(lb: Balancer, name: string) {
    lb.stack.Some? && lb.stack.value.name == name
  }

  // Where the load balancers of the model come from.

  lemma {:induction false} NewOnesHaveNoStack(start: seq<Balancer>, cl: nat, requests: seq<Request>, maxCerts: int, j: nat)
    requires cl < |start| <= j < |PlaceAll(start, cl, requests, maxCerts)|
    ensures var lb := PlaceAll(start, cl, requests, maxCerts)[j];
            lb.stack.None? && lb.existingStackCertificateARNs == map[]
  {
    if requests != [] {
      var front := requests[..|requests| - 1];
      if j < |PlaceAll(start, cl, front, maxCerts)| {
        NewOnesHaveNoStack(start, cl, front, maxCerts, j);
      }
    }
  }

  /** A load balancer of the model that has a stack was built from a listed stack. */
  lemma ModelStack(listing: Listing, j: nat) returns (sl: StackLBState)
    requires j < |listing.Model()| && listing.Model()[j].stack.Some?
    ensures sl in listing.stacks
    ensures var lb := listing.Model()[j];
            && lb.stack == Some(sl.stack) && !lb.clusterLocal && lb.certTTL == listing.certTTL
            && lb.existingStackCertificateARNs == Available(listing.certs, sl.stack.certificateARNs)
  {
    var start, requests := listing.Start(), listing.Requests();
    if j >= |start| {
      NewOnesHaveNoStack(start, |start| - 1, requests, listing.certsPerALB, j);
    }
    SettingsNeverChange(start, |start| - 1, requests, listing.certsPerALB, j);
    sl := SortedStacks(listing.stacks)[j];
    assert sl in multiset(SortedStacks(listing.stacks));
  }

  // The grace period.

  /** The certificate is required, or its deadline is not before the given one, up to a second. */
  ghost predicate Lasts(recorded: map<string, Time>, arn: string, deadline: Time) {
    arn in recorded && (IsZero(recorded[arn])
                        || (recorded[arn] + SECOND > deadline && Truncate(recorded[arn]) == recorded[arn]))
  }

  ghost predicate LastsIn(cf: CfStack, arn: string, deadline: Time) {
    Lasts(RecordedCertificates(ToMap(cf.tags)), arn, deadline)
  }

  ghost predicate LastsOn(config: Config, lb: Balancer, arn: string, deadline: Time) {
    && lb.stack.Some? && !lb.clusterLocal && lb.certTTL == config.certTTL
    && Lasts(lb.stack.value.certificateARNs, arn, deadline)
    && arn in lb.existingStackCertificateARNs
    && lb.existingStackCertificateARNs[arn] == lb.stack.value.certificateARNs[arn]
  }

  ghost predicate PendingLasts(config: Config, pending: seq<Balancer>, name: string, arn: string, deadline: Time) {
    forall k :: 0 <= k < |pending| && Concerns(pending[k], name) ==> LastsOn(config, pending[k], arn, deadline)
  }

  /** The stack will not be deleted before the deadline. */
  ghost predicate Shielded(config: Config, w: World, name: string, arn: string, deadline: Time) {
    && name in w.stacks && name in w.used && !GoingAway(w.stacks[name].cf.status)
    && LastsIn(w.stacks[name].cf, arn, deadline) && LastsIn(w.stacks[name].saved, arn, deadline)
    && PendingLasts(config, w.pending, name, arn, deadline)
    && deadline <= w.clock + config.certTTL
  }

  lemma StartKeepsShield(config: Config, w: World, w': World, listing: Listing, name: string, arn: string, deadline: Time)
    requires Started(config, w, w', listing) && Shielded(config, w, name, arn, deadline)
    requires CertificateExists(listing.certs, arn)
    ensures Shielded(config, w', name, arn, deadline)
  {
    hide Listing.Model, LastsIn, Reads, IsManagedStack;
    forall k | 0 <= k < |w'.pending| && Concerns(w'.pending[k], name)
      ensures LastsOn(config, w'.pending[k], arn, deadline)
    {
      var sl := ModelStack(listing, k);
      ReadLasts(config, w.stacks, sl, arn, deadline);
    }
  }

  lemma ReadLasts(config: Config, stacks: map<string, Record>, sl: StackLBState, arn: string, deadline: Time)
    requires ListedFrom(config, stacks, sl) && LastsIn(stacks[sl.stack.name].cf, arn, deadline)
    ensures Lasts(sl.stack.certificateARNs, arn, deadline)
  {
    hide IsManagedStack;
  }

  lemma UpdateLasts(config: Config, lb: Balancer, cf: CfStack, spec: StackSpec, now: Time, arn: string, deadline: Time)
    requires LastsOn(config, lb, arn, deadline) && WrittenFrom(cf, spec) && AvoidsReservedTags(spec.tags)
    requires spec.certificateARNs == lb.CertificateARNs(now)
    requires deadline <= now + config.certTTL && now + SECOND <= deadline
    ensures LastsIn(cf, arn, deadline)
  {
    RecordedCertificatesRoundTrip(cf, spec);
    assert arn in lb.CertificateARNs(now);
  }

  lemma ActKeepsShield(
    config: Config, w: World, w': World, cf: CfStack, owner: string, subnets: seq<string>, accepted: bool,
    name: string, arn: string, deadline: Time)
    requires Acted(config, w, w', cf, owner, subnets, accepted) && Shielded(config, w, name, arn, deadline)
    requires AvoidsReservedTags(config.stackTags) && w'.clock + SECOND <= deadline
    ensures Shielded(config, w', name, arn, deadline)
  {
    hide WrittenFrom, LastsIn, Balancer.InSync;
    var lb := w.pending[0];
    forall k | 0 <= k < |w'.pending| && Concerns(w'.pending[k], name)
      ensures LastsOn(config, w'.pending[k], arn, deadline)
    {
      assert w'.pending[k] == w.pending[k + 1];
    }
    if accepted && Concerns(lb, name) {
      assert LastsOn(config, lb, arn, deadline);
      assert !lb.stack.value.ShouldDelete(w.clock);
      if lb.Status(w.clock, w.firstRun) == Update {
        UpdateLasts(config, lb, cf, config.UpdateSpec(name, lb, w'.clock, owner, subnets), w'.clock, arn, deadline);
      }
    }
  }

  lemma StepKeepsShield(config: Config, w: World, w': World, step: Step, name: string, arn: string, deadline: Time)
    requires Next(config, w, w', step) && Shielded(config, w, name, arn, deadline)
    requires AvoidsReservedTags(config.stackTags) && w'.clock + SECOND <= deadline
    requires step.StartCycle? ==> CertificateExists(step.listing.certs, arn)
    ensures Shielded(config, w', name, arn, deadline)
  {
    hide Started, Acted, Shielded, Settled, RolledBack, Vanished;
    match step
    case StartCycle(listing) =>
      StartKeepsShield(config, w, w', listing, name, arn, deadline);
    case Act(cf, owner, subnets, accepted) =>
      ActKeepsShield(config, w, w', cf, owner, subnets, accepted, name, arn, deadline);
    case _ =>
      OtherStepKeepsShield(config, w, w', step, name, arn, deadline);
  }

  lemma OtherStepKeepsShield(config: Config, w: World, w': World, step: Step, name: string, arn: string, deadline: Time)
    requires Next(config, w, w', step) && Shielded(config, w, name, arn, deadline)
    requires !step.StartCycle? && !step.Act?
    ensures Shielded(config, w', name, arn, deadline)
  {
    hide Started, Acted, RecordedCertificates, LastsOn, ManagedStack;
  }

  /** arn is available in every cycle that starts between the worlds i and j. */
  ghost predicate StaysAvailable(run: Run, i: nat, j: nat, arn: string)
    requires i <= j <= |run.steps|
  {
    forall k :: i <= k < j && run.steps[k].StartCycle? ==> CertificateExists(run.steps[k].listing.certs, arn)
  }

  lemma {:induction false} ShieldLasts(config: Config, run: Run, i: nat, j: nat, name: string, arn: string, deadline: Time)
    requires run.Of(config) && i <= j < |run.worlds| && AvoidsReservedTags(config.stackTags)
    requires Shielded(config, run.worlds[i], name, arn, deadline)
    requires StaysAvailable(run, i, j, arn) && run.worlds[j].clock + SECOND <= deadline
    ensures Shielded(config, run.worlds[j], name, arn, deadline)
  {
    if i < j {
      var w, w', step := run.worlds[j - 1], run.worlds[j], run.steps[j - 1];
      assert Next(config, w, w', step);
      TimePasses(config, run, j - 1, j);
      ShieldLasts(config, run, i, j - 1, name, arn, deadline);
      assert step.StartCycle? ==> CertificateExists(step.listing.certs, arn);
      hide Next, Shielded, StaysAvailable, Run.Of, CertificateExists, AvoidsReservedTags;
      StepKeepsShield(config, w, w', step, name, arn, deadline);
    }
  }

  // What holds of every world that the controller and CloudFormation can reach.

  /** Stacks are kept by name, and a completed stack is what it would be rolled back to. */
  ghost predicate Orderly(w: World) {
    forall name :: name in w.stacks ==> name in w.used && OrderlyRecord(w.stacks[name], name)
  }

  ghost predicate OrderlyRecord(record: Record, name: string) {
    && record.cf.name == name && record.saved.name == name
    && (record.cf.status.Complete() ==>
          record.saved.tags == record.cf.tags && record.saved.parameters == record.cf.parameters)
  }

  /** A new controller next to stacks that all have settled. */
  ghost predicate Initial(w: World) {
    w.pending == [] && w.firstRun && Orderly(w)
  }

  lemma StepKeepsOrder(config: Config, w: World, w': World, step: Step)
    requires Next(config, w, w', step) && Orderly(w)
    ensures Orderly(w')
  {
    hide Started, Acted, ManagedStack;
    if step.Act? {
      ActKeepsOrder(config, w, w', step.cf, step.owner, step.subnets, step.accepted);
    } else if step.StartCycle? {
      StartKeepsOrder(config, w, w', step.listing);
    } else {
      forall name | name in w'.stacks ensures name in w'.used && OrderlyRecord(w'.stacks[name], name) {
        assert name in w.stacks && OrderlyRecord(w.stacks[name], name);
      }
    }
  }

  lemma StartKeepsOrder(config: Config, w: World, w': World, listing: Listing)
    requires Started(config, w, w', listing) && Orderly(w)
    ensures Orderly(w')
  {
    hide Lists, ManagedStack, Listing.Model;
  }

  lemma ActKeepsOrder(
    config: Config, w: World, w': World, cf: CfStack, owner: string, subnets: seq<string>, accepted: bool)
    requires Acted(config, w, w', cf, owner, subnets, accepted) && Orderly(w)
    ensures Orderly(w')
  {
    hide WrittenFrom, Balancer.InSync, Balancer.MayBeOwner, Balancer.CertificateARNs;
    var lb := w.pending[0];
    if accepted && lb.Status(w.clock, w.firstRun) == Update {
      assert OrderlyRecord(w.stacks[lb.stack.value.name], lb.stack.value.name);
    }
    forall name | name in w'.stacks ensures name in w'.used && OrderlyRecord(w'.stacks[name], name) {
    }
  }

  lemma {:induction false} RunKeepsOrder(config: Config, run: Run, i: nat)
    requires run.Of(config) && i < |run.worlds| && Initial(run.worlds[0])
    ensures Orderly(run.worlds[i])
  {
    if i > 0 {
      RunKeepsOrder(config, run, i - 1);
      assert Next(config, run.worlds[i - 1], run.worlds[i], run.steps[i - 1]);
      StepKeepsOrder(config, run.worlds[i - 1], run.worlds[i], run.steps[i - 1]);
    }
  }

  /** No load balancer of the running cycle stands for this stack. */
  ghost predicate Idle(w: World, name: string) {
    forall k :: 0 <= k < |w.pending| ==> !Concerns(w.pending[k], name)
  }

  ghost predicate SameRecord(w: World, w': World, name: string) {
    (name in w'.stacks <==> name in w.stacks) && (name in w.stacks ==> w'.stacks[name] == w.stacks[name])
  }

  /** Dealing with a load balancer changes no stack but its own. */
  lemma ActLeavesOthers(
    config: Config, w: World, w': World, cf: CfStack, owner: string, subnets: seq<string>, accepted: bool, name: string)
    requires Acted(config, w, w', cf, owner, subnets, accepted)
    requires name in w.used && !Concerns(w.pending[0], name)
    ensures name in w'.used && SameRecord(w, w', name)
  {
    hide WrittenFrom, Balancer.Status, Balancer.MayBeOwner, Config.Spec;
  }

  /** If a completed stack records a certificate as required, and the certificate stays
      available, then whatever else happens - any ingresses, failed and rolled back
      updates, restarts - the stack is there for the whole grace period but its last
      second, and no deletion of it is asked for. */
  lemma GracePeriod(config: Config, run: Run, i: nat, j: nat, name: string, arn: string)
    requires run.Of(config) && Initial(run.worlds[0]) && i <= j < |run.worlds| && AvoidsReservedTags(config.stackTags)
    requires name in run.worlds[i].stacks && run.worlds[i].stacks[name].cf.status.Complete()
    requires Idle(run.worlds[i], name)
    requires var recorded := RecordedCertificates(ToMap(run.worlds[i].stacks[name].cf.tags));
             arn in recorded && IsZero(recorded[arn])
    requires StaysAvailable(run, i, j, arn)
    requires run.worlds[j].clock + SECOND <= run.worlds[i].clock + config.certTTL
    ensures name in run.worlds[j].stacks && !run.worlds[j].stacks[name].cf.status.DeleteInProgress?
    ensures forall k :: 0 <= k < |run.worlds[j].pending| && Concerns(run.worlds[j].pending[k], name) ==>
      !run.worlds[j].pending[k].stack.value.ShouldDelete(run.worlds[j].clock)
  {
    hide Run.Of, RecordedCertificates, StaysAvailable, Initial;
    RunKeepsOrder(config, run, i);
    var w := run.worlds[i];
    assert OrderlyRecord(w.stacks[name], name);
    ShieldLasts(config, run, i, j, name, arn, w.clock + config.certTTL);
    forall k | 0 <= k < |run.worlds[j].pending| && Concerns(run.worlds[j].pending[k], name)
      ensures !run.worlds[j].pending[k].stack.value.ShouldDelete(run.worlds[j].clock)
    {
      assert LastsOn(config, run.worlds[j].pending[k], arn, w.clock + config.certTTL);
    }
  }

  // The deadline.

  /** If the certificate is recorded at all, it is with this deadline. */
  predicate AtMost(recorded: map<string, Time>, arn: string, deadline: Time) {
    arn in recorded ==> recorded[arn] == deadline
  }

  ghost predicate AtMostIn(cf: CfStack, arn: string, deadline: Time) {
    && Lookup(ToMap(cf.tags), CERTIFICATE_ARN_TAG_LEGACY) != Some(arn)
    && AtMost(RecordedCertificates(ToMap(cf.tags)), arn, deadline)
  }

  predicate Unused(lb: Balancer, arn: string) {
    arn !in lb.Required()
  }

  ghost predicate PendingAtMost(pending: seq<Balancer>, name: string, arn: string, deadline: Time) {
    forall k :: 0 <= k < |pending| && Concerns(pending[k], name) ==>
      Unused(pending[k], arn) && AtMost(pending[k].existingStackCertificateARNs, arn, deadline)
  }

  /** Wherever the stack's certificates are recorded or in use, arn has this deadline or none. */
  ghost predicate Capped(w: World, name: string, arn: string, deadline: Time) {
    && name in w.used
    && (name in w.stacks ==> AtMostIn(w.stacks[name].cf, arn, deadline) && AtMostIn(w.stacks[name].saved, arn, deadline))
    && PendingAtMost(w.pending, name, arn, deadline)
  }

  lemma RecordedTimesAreWhole(tags: map<string, string>, arn: string)
    requires arn in RecordedCertificates(tags)
    ensures Truncate(RecordedCertificates(tags)[arn]) == RecordedCertificates(tags)[arn]
  {
  }

  lemma StartKeepsCap(config: Config, w: World, w': World, listing: Listing, name: string, arn: string, deadline: Time)
    requires Started(config, w, w', listing) && Capped(w, name, arn, deadline)
    requires UnusedInModel(listing, name, arn)
    ensures Capped(w', name, arn, deadline)
  {
    hide Listing.Model, IsManagedStack, AtMostIn, Reads, Unused;
    forall k | 0 <= k < |w'.pending| && Concerns(w'.pending[k], name)
      ensures AtMost(w'.pending[k].existingStackCertificateARNs, arn, deadline)
    {
      var sl := ModelStack(listing, k);
      ReadAtMost(config, w.stacks, sl, arn, deadline);
    }
  }

  lemma ReadAtMost(config: Config, stacks: map<string, Record>, sl: StackLBState, arn: string, deadline: Time)
    requires ListedFrom(config, stacks, sl) && AtMostIn(stacks[sl.stack.name].cf, arn, deadline)
    ensures AtMost(sl.stack.certificateARNs, arn, deadline)
  {
    var cf := stacks[sl.stack.name].cf;
    assert RecordedCertificates(ToMap(cf.tags)).Keys == CertificateKeys(ToMap(cf.tags));
    hide IsManagedStack, RecordedCertificates, CertificateKeys;
  }

  lemma UpdateAtMost(lb: Balancer, cf: CfStack, spec: StackSpec, now: Time, arn: string, deadline: Time)
    requires WrittenFrom(cf, spec) && AvoidsReservedTags(spec.tags) && spec.certificateARNs == lb.CertificateARNs(now)
    requires Unused(lb, arn) && AtMost(lb.existingStackCertificateARNs, arn, deadline)
    requires !IsZero(deadline) && Truncate(deadline) == deadline
    ensures AtMostIn(cf, arn, deadline)
  {
    RecordedCertificatesRoundTrip(cf, spec);
  }

  lemma ActKeepsCap(
    config: Config, w: World, w': World, cf: CfStack, owner: string, subnets: seq<string>, accepted: bool,
    name: string, arn: string, deadline: Time)
    requires Acted(config, w, w', cf, owner, subnets, accepted) && Capped(w, name, arn, deadline)
    requires AvoidsReservedTags(config.stackTags) && !IsZero(deadline) && Truncate(deadline) == deadline
    ensures Capped(w', name, arn, deadline)
  {
    hide WrittenFrom, Balancer.InSync, AtMostIn, Unused, AtMost;
    var lb := w.pending[0];
    forall k | 0 <= k < |w'.pending| && Concerns(w'.pending[k], name)
      ensures Unused(w'.pending[k], arn) && AtMost(w'.pending[k].existingStackCertificateARNs, arn, deadline)
    {
      assert w'.pending[k] == w.pending[k + 1];
    }
    if accepted && Concerns(lb, name) && lb.Status(w.clock, w.firstRun) == Update {
      UpdateAtMost(lb, cf, config.UpdateSpec(name, lb, w'.clock, owner, subnets), w'.clock, arn, deadline);
    }
    if accepted && Concerns(lb, name) && lb.Status(w.clock, w.firstRun) == Delete {
      SameTagsAtMost(w.stacks[name].cf, w'.stacks[name].cf, arn, deadline);
    }
  }

  lemma SameTagsAtMost(cf: CfStack, cf': CfStack, arn: string, deadline: Time)
    requires AtMostIn(cf, arn, deadline) && cf'.tags == cf.tags
    ensures AtMostIn(cf', arn, deadline)
  {
  }

  lemma StepKeepsCap(config: Config, w: World, w': World, step: Step, name: string, arn: string, deadline: Time)
    requires Next(config, w, w', step) && Capped(w, name, arn, deadline)
    requires AvoidsReservedTags(config.stackTags) && !IsZero(deadline) && Truncate(deadline) == deadline
    requires step.StartCycle? ==> UnusedInModel(step.listing, name, arn)
    ensures Capped(w', name, arn, deadline)
  {
    hide Started, Acted, Capped, Settled, RolledBack, Vanished;
    match step
    case StartCycle(listing) =>
      StartKeepsCap(config, w, w', listing, name, arn, deadline);
    case Act(cf, owner, subnets, accepted) =>
      ActKeepsCap(config, w, w', cf, owner, subnets, accepted, name, arn, deadline);
    case _ =>
      OtherStepKeepsCap(config, w, w', step, name, arn, deadline);
  }

  lemma OtherStepKeepsCap(config: Config, w: World, w': World, step: Step, name: string, arn: string, deadline: Time)
    requires Next(config, w, w', step) && Capped(w, name, arn, deadline)
    requires !step.StartCycle? && !step.Act?
    ensures Capped(w', name, arn, deadline)
  {
    hide Started, Acted, RecordedCertificates, ManagedStack;
  }

  /** In the model of this listing no ingress on the stack needs the certificate. */
  ghost predicate UnusedInModel(listing: Listing, name: string, arn: string) {
    forall k :: 0 <= k < |listing.Model()| && Concerns(listing.Model()[k], name) ==> Unused(listing.Model()[k], arn)
  }

  ghost predicate StaysUnused(run: Run, i: nat, j: nat, name: string, arn: string)
    requires i <= j <= |run.steps|
  {
    forall k :: i <= k < j && run.steps[k].StartCycle? ==> UnusedInModel(run.steps[k].listing, name, arn)
  }

  lemma {:induction false} CapLasts(config: Config, run: Run, i: nat, j: nat, name: string, arn: string, deadline: Time)
    requires run.Of(config) && i <= j < |run.worlds| && AvoidsReservedTags(config.stackTags)
    requires Capped(run.worlds[i], name, arn, deadline) && !IsZero(deadline) && Truncate(deadline) == deadline
    requires StaysUnused(run, i, j, name, arn)
    ensures Capped(run.worlds[j], name, arn, deadline)
  {
    if i < j {
      var w, w', step := run.worlds[j - 1], run.worlds[j], run.steps[j - 1];
      assert Next(config, w, w', step);
      CapLasts(config, run, i, j - 1, name, arn, deadline);
      hide Next, Capped, UnusedInModel, AvoidsReservedTags;
      StepKeepsCap(config, w, w', step, name, arn, deadline);
    }
  }

  /** Once a completed stack records a deadline for a certificate, the deadline is never
      extended while no ingress on the stack needs the certificate: in every later world
      the stack records the same deadline, or no longer records the certificate. */
  lemma DeadlineNeverExtended(config: Config, run: Run, i: nat, j: nat, name: string, arn: string, deadline: Time)
    requires run.Of(config) && Initial(run.worlds[0]) && i <= j < |run.worlds| && AvoidsReservedTags(config.stackTags)
    requires name in run.worlds[i].stacks && run.worlds[i].stacks[name].cf.status.Complete()
    requires Idle(run.worlds[i], name)
    requires var tags := ToMap(run.worlds[i].stacks[name].cf.tags);
             && Lookup(tags, CERTIFICATE_ARN_TAG_LEGACY) != Some(arn)
             && arn in RecordedCertificates(tags) && RecordedCertificates(tags)[arn] == deadline && !IsZero(deadline)
    requires StaysUnused(run, i, j, name, arn)
    ensures name in run.worlds[j].stacks ==>
      var recorded := RecordedCertificates(ToMap(run.worlds[j].stacks[name].cf.tags));
      arn in recorded ==> recorded[arn] == deadline
  {
    hide Run.Of, RecordedCertificates, StaysUnused, Initial, AvoidsReservedTags;
    RunKeepsOrder(config, run, i);
    var record := run.worlds[i].stacks[name];
    assert OrderlyRecord(record, name);
    RecordedTimesAreWhole(ToMap(record.cf.tags), arn);
    CapLasts(config, run, i, j, name, arn, deadline);
  }
}
