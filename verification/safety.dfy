/** What holds in every world that the controller can reach: it never gets stuck, asks
    only for available certificates and never puts more on a stack than allowed. */
module Safety {
  import opened Text
  import opened Clock
  import opened Stacks
  import opened Certificates
  import opened LoadBalancers
  import opened Matching
  import opened Model
  import opened Placements
  import opened Packing
  import opened Reconciler
  import opened GracePeriods

  // The model of one cycle.

  predicate RequestsNonEmpty(requests: seq<Request>) {
    forall k :: 0 <= k < |requests| && requests[k].certs.Some? ==> requests[k].certs.value != {}
  }

  ghost predicate AllGrounded(lbs: seq<Balancer>) {
    forall k :: 0 <= k < |lbs| ==> lbs[k].Grounded()
  }

  lemma PlaceKeepsGrounded(lbs: seq<Balancer>, cl: nat, request: Request, maxCerts: int)
    requires cl < |lbs| && AllGrounded(lbs) && (request.certs.Some? ==> request.certs.value != {})
    ensures AllGrounded(Place(lbs, cl, request, maxCerts))
  {
    var after := Place(lbs, cl, request, maxCerts);
    forall k | 0 <= k < |after| ensures after[k].Grounded() {
      if k < |lbs| {
        PlaceOnlyAdds(lbs, cl, request, maxCerts, k);
        assert lbs[k].ingresses == map[] <==> lbs[k].ingresses.Keys == {};
      } else {
        var arn :| arn in request.certs.value;
        assert arn in after[k].ingresses;
      }
    }
  }

  lemma {:induction false} PlacementKeepsGrounded(start: seq<Balancer>, cl: nat, requests: seq<Request>, maxCerts: int)
    requires cl < |start| && AllGrounded(start) && RequestsNonEmpty(requests)
    ensures AllGrounded(PlaceAll(start, cl, requests, maxCerts))
  {
    if requests != [] {
      var front := requests[..|requests| - 1];
      PlacementKeepsGrounded(start, cl, front, maxCerts);
      PlaceKeepsGrounded(PlaceAll(start, cl, front, maxCerts), cl, requests[|requests| - 1], maxCerts);
    }
  }

  function Ids(certs: seq<CertificateSummary>): set<string> {
    set c | c in certs :: c.id
  }

  lemma RequestsAreAvailable(listing: Listing)
    ensures RequestsWithin(listing.Requests(), Ids(listing.certs)) && RequestsNonEmpty(listing.Requests())
  {
    var requests, certs := listing.Requests(), listing.certs;
    forall k | 0 <= k < |requests| && requests[k].certs.Some?
      ensures requests[k].certs.value <= Ids(certs) && requests[k].certs.value != {}
    {
      var ingress := WithGlobalWAF(listing.ingresses, listing.globalWAFACL)[k];
      assert requests[k] == Request(ingress, Resolve(certs, ingress, listing.now));
      forall arn | arn in requests[k].certs.value ensures arn in Ids(certs) {
        assert CertificateExists(certs, arn);
      }
    }
  }

  lemma StartIsAvailable(listing: Listing)
    ensures AllWithin(listing.Start(), Ids(listing.certs)) && AllGrounded(listing.Start())
  {
    forall arn | CertificateExists(listing.certs, arn) ensures arn in Ids(listing.certs) {
    }
  }

  lemma ModelIsSound(listing: Listing)
    ensures AllWithin(listing.Model(), Ids(listing.certs)) && AllGrounded(listing.Model())
  {
    hide Resolve, BalancersOf, PlaceAll, RequestsWithin, RequestsNonEmpty;
    var start, requests := listing.Start(), listing.Requests();
    RequestsAreAvailable(listing);
    StartIsAvailable(listing);
    CertificatesAreAvailable(start, |start| - 1, requests, listing.certsPerALB, Ids(listing.certs));
    PlacementKeepsGrounded(start, |start| - 1, requests, listing.certsPerALB);
    var placed, model := listing.Placed(), listing.Model();
    forall k | 0 <= k < |model| ensures Within(model[k], Ids(listing.certs)) && model[k].Grounded() {
      assert Within(placed[k], Ids(listing.certs)) && placed[k].Grounded();
    }
  }

  // Over all runs.

  /** The running cycle only asks for available certificates, and each of its load
      balancers has a reason to be there, so that their status is defined. */
  ghost predicate Sound(w: World) {
    AllWithin(w.pending, w.listed) && AllGrounded(w.pending)
  }

  lemma StepKeepsSound(config: Config, w: World, w': World, step: Step)
    requires Next(config, w, w', step) && Sound(w)
    ensures Sound(w')
  {
    hide WrittenFrom, Lists, Balancer.Status, Listing.Model, Creates, Updates, Deletes;
    if step.StartCycle? {
      ModelIsSound(step.listing);
    } else if step.Act? {
      forall k | 0 <= k < |w'.pending| ensures w'.pending[k] == w.pending[k + 1] {
      }
    }
  }

  /** Whatever has happened, the controller asks only for available certificates and can
      deal with its next load balancer, if only by having its request rejected. */
  lemma {:induction false} RunStaysSound(config: Config, run: Run, i: nat)
    requires run.Of(config) && i < |run.worlds| && Initial(run.worlds[0])
    ensures Sound(run.worlds[i])
    ensures var w := run.worlds[i];
            w.pending != [] ==>
              forall cf, owner, subnets :: Acted(config, w, w.(pending := w.pending[1..]), cf, owner, subnets, false)
  {
    if i > 0 {
      hide Next, Acted;
      RunStaysSound(config, run, i - 1);
      assert Next(config, run.worlds[i - 1], run.worlds[i], run.steps[i - 1]);
      StepKeepsSound(config, run.worlds[i - 1], run.worlds[i], run.steps[i - 1]);
    }
    if run.worlds[i].pending != [] {
      SoundIsNeverStuck(config, run.worlds[i]);
    }
  }

  lemma SoundIsNeverStuck(config: Config, w: World)
    requires Sound(w) && w.pending != []
    ensures forall cf, owner, subnets :: Acted(config, w, w.(pending := w.pending[1..]), cf, owner, subnets, false)
  {
    assert w.pending[0].Grounded();
  }

  /** The certificates recorded by the stack that this step has created or updated. */
  ghost predicate Writes(config: Config, w: World, w': World, step: Step, name: string) {
    && step.Act? && step.accepted && Next(config, w, w', step)
    && w.pending[0].Status(w.clock, w.firstRun) in {Missing, Update} && name == step.cf.name
  }

  /** Every certificate sent to create or update is in the list of the cycle. */
  lemma SentCertificatesAreAvailable(config: Config, w: World, w': World, step: Step, name: string)
    requires Sound(w) && Orderly(w) && AvoidsReservedTags(config.stackTags) && Writes(config, w, w', step, name)
    ensures name in w'.stacks && CertificateKeys(ToMap(w'.stacks[name].cf.tags)) <= w.listed
    ensures CertificateKeys(ToMap(w'.stacks[name].cf.tags)) <= w.pending[0].ingresses.Keys
  {
    hide WrittenFrom, Balancer.InSync, AvoidsReservedTags, Balancer.MayBeOwner, AllGrounded;
    var lb := w.pending[0];
    assert Within(lb, w.listed) && !lb.clusterLocal;
    if lb.Status(w.clock, w.firstRun) == Missing {
      WrittenKeys(step.cf, config.CreateSpec(step.cf.name, lb, step.owner, step.subnets));
    } else {
      assert OrderlyRecord(w.stacks[lb.stack.value.name], lb.stack.value.name);
      SentCertificatesAreKeys(lb, w'.clock);
      WrittenKeys(step.cf, config.UpdateSpec(lb.stack.value.name, lb, w'.clock, step.owner, step.subnets));
    }
  }

  lemma WrittenKeys(cf: CfStack, spec: StackSpec)
    requires WrittenFrom(cf, spec) && AvoidsReservedTags(spec.tags)
    ensures CertificateKeys(ToMap(cf.tags)) == spec.certificateARNs.Keys
  {
    RecordedCertificatesRoundTrip(cf, spec);
    assert RecordedCertificates(ToMap(cf.tags)).Keys == CertificateKeys(ToMap(cf.tags));
  }

  // Capacity.

  ghost predicate Few(cf: CfStack, max: int) {
    |CertificateKeys(ToMap(cf.tags))| <= max
  }

  ghost predicate AllFew(stacks: map<string, Record>, max: int) {
    forall name :: name in stacks ==> Few(stacks[name].cf, max) && Few(stacks[name].saved, max)
  }

  ghost predicate AllWithinLimit(lbs: seq<Balancer>, max: int) {
    forall k :: 0 <= k < |lbs| ==> WithinLimit(lbs[k], max)
  }

  /** No stack records, and no load balancer of the running cycle holds, more than max certificates. */
  ghost predicate WithinCapacity(w: World, max: int) {
    AllFew(w.stacks, max) && AllWithinLimit(w.pending, max)
  }

  lemma StartWithinLimit(config: Config, stacks: map<string, Record>, listing: Listing, j: nat)
    requires Lists(config, stacks, listing.stacks) && AllFew(stacks, listing.certsPerALB) && j < |listing.Start()|
    ensures WithinLimit(listing.Start()[j], listing.certsPerALB)
  {
    hide IsManagedStack, DistinctNames, CertificateKeys;
    var sorted := SortedStacks(listing.stacks);
    if j < |sorted| {
      assert sorted[j] in multiset(sorted);
      assert ListedFrom(config, stacks, sorted[j]);
      var recorded := sorted[j].stack.certificateARNs;
      var lb := BalancerOf(listing.certs, listing.certTTL, sorted[j]);
      assert lb.ingresses.Keys <= recorded.Keys;
      SubsetSize(lb.ingresses.Keys, recorded.Keys);
      assert |lb.ingresses| == |lb.ingresses.Keys|;
    }
  }

  lemma StartKeepsCapacity(config: Config, w: World, w': World, listing: Listing)
    requires Started(config, w, w', listing) && WithinCapacity(w, config.certsPerALB)
    requires RequestsWithinLimit(listing.Requests(), config.certsPerALB)
    ensures WithinCapacity(w', config.certsPerALB)
  {
    hide Lists, AllFew, RequestsWithinLimit, Listing.Requests;
    var start, requests := listing.Start(), listing.Requests();
    forall k | 0 <= k < |w'.pending| ensures WithinLimit(w'.pending[k], config.certsPerALB) {
      if k < |start| {
        StartWithinLimit(config, w.stacks, listing, k);
      }
      PlacementKeepsLimit(start, |start| - 1, requests, config.certsPerALB, k);
      assert WithinLimit(listing.Placed()[k], config.certsPerALB);
    }
  }

  lemma WritesFew(config: Config, w: World, w': World, step: Step, max: int)
    requires step.Act? && Writes(config, w, w', step, step.cf.name) && WithinLimit(w.pending[0], max)
    requires Sound(w) && Orderly(w) && AvoidsReservedTags(config.stackTags)
    ensures step.cf.name in w'.stacks && Few(w'.stacks[step.cf.name].cf, max)
  {
    var lb := w.pending[0];
    hide Next, Orderly, AvoidsReservedTags, CertificateKeys;
    SentCertificatesAreAvailable(config, w, w', step, step.cf.name);
    SubsetSize(CertificateKeys(ToMap(w'.stacks[step.cf.name].cf.tags)), lb.ingresses.Keys);
    assert |lb.ingresses| == |lb.ingresses.Keys|;
  }

  lemma ActKeepsCapacity(config: Config, w: World, w': World, step: Step, max: int)
    requires step.Act? && Next(config, w, w', step)
    requires WithinCapacity(w, max) && Sound(w) && Orderly(w) && AvoidsReservedTags(config.stackTags)
    ensures WithinCapacity(w', max)
  {
    hide AllFew, Sound, Orderly, AvoidsReservedTags, WithinLimit;
    assert w.pending != [] && w'.pending == w.pending[1..];
    if step.accepted && w.pending[0].Status(w.clock, w.firstRun) in {Missing, Update} {
      WritesFew(config, w, w', step, max);
    }
    ActKeepsFew(config, w, w', step, max);
  }

  lemma ActKeepsFew(config: Config, w: World, w': World, step: Step, max: int)
    requires step.Act? && Next(config, w, w', step) && AllFew(w.stacks, max)
    requires step.accepted && w.pending[0].Status(w.clock, w.firstRun) in {Missing, Update} ==>
      step.cf.name in w'.stacks && Few(w'.stacks[step.cf.name].cf, max)
    requires Orderly(w)
    ensures AllFew(w'.stacks, max)
  {
    hide WrittenFrom, Balancer.Status, Balancer.MayBeOwner, Balancer.CertificateARNs, CertificateKeys, Config.Spec;
    var lb := w.pending[0];
    if step.accepted && lb.Status(w.clock, w.firstRun) == Update {
      assert OrderlyRecord(w.stacks[lb.stack.value.name], lb.stack.value.name);
    }
  }

  lemma StepKeepsCapacity(config: Config, w: World, w': World, step: Step)
    requires Next(config, w, w', step)
    requires WithinCapacity(w, config.certsPerALB) && Sound(w) && Orderly(w) && AvoidsReservedTags(config.stackTags)
    requires step.StartCycle? ==> RequestsWithinLimit(step.listing.Requests(), config.certsPerALB)
    ensures WithinCapacity(w', config.certsPerALB)
  {
    hide Started, Acted, Settled, RolledBack, Vanished, WithinCapacity, Sound, Orderly, AvoidsReservedTags, RequestsWithinLimit;
    if step.StartCycle? {
      StartKeepsCapacity(config, w, w', step.listing);
    } else if step.Act? {
      ActKeepsCapacity(config, w, w', step, config.certsPerALB);
    } else {
      OtherStepKeepsCapacity(config, w, w', step, config.certsPerALB);
    }
  }

  lemma OtherStepKeepsCapacity(config: Config, w: World, w': World, step: Step, max: int)
    requires Next(config, w, w', step) && WithinCapacity(w, max) && !step.StartCycle? && !step.Act?
    ensures WithinCapacity(w', max)
  {
    hide Started, Acted, CertificateKeys, WithinLimit;
  }

  /** In no cycle does an ingress need more certificates than fit on one load balancer. */
  ghost predicate IngressesFit(config: Config, run: Run, i: nat)
    requires i <= |run.steps|
  {
    forall k :: 0 <= k < i && run.steps[k].StartCycle? ==>
      RequestsWithinLimit(run.steps[k].listing.Requests(), config.certsPerALB)
  }

  /** If all stacks start within the limit and no single ingress needs more, no stack ever
      records more certificates than fit on one load balancer: not after creations and
      updates, nor when updates are rolled back. */
  lemma {:induction false} CapacityOverRuns(config: Config, run: Run, i: nat)
    requires run.Of(config) && i < |run.worlds| && Initial(run.worlds[0]) && AvoidsReservedTags(config.stackTags)
    requires AllFew(run.worlds[0].stacks, config.certsPerALB)
    requires IngressesFit(config, run, i)
    ensures WithinCapacity(run.worlds[i], config.certsPerALB)
  {
    if i > 0 {
      var w, w', step := run.worlds[i - 1], run.worlds[i], run.steps[i - 1];
      assert Next(config, w, w', step);
      CapacityOverRuns(config, run, i - 1);
      RunStaysSound(config, run, i - 1);
      RunKeepsOrder(config, run, i - 1);
      hide Next, Sound, Orderly, WithinCapacity, RequestsWithinLimit, AvoidsReservedTags;
      StepKeepsCapacity(config, w, w', step);
    }
  }
}
