/** How long a stack stays its owner's, over whole runs of the controller (worker.go,
    aws/cf.go). */
module Ownership {
  import opened Text
  import opened Clock
  import opened Sorting
  import opened Stacks
  import opened Certificates
  import opened LoadBalancers
  import opened Matching
  import opened Model
  import opened Placements
  import opened Reconciler
  import opened GracePeriods

  function OwnerIn(cf: CfStack): string {
    GetOr(ToMap(cf.tags), INGRESS_OWNER_TAG)
  }

  /** An ingress that is not shared is placed here, and as the last one. */
  predicate Occupied(lb: Balancer) {
    !lb.shared && lb.Required() != {}
  }

  // In one cycle.

  /** No shared ingress has this name. */
  predicate NoneShared(requests: seq<Request>, owner: string) {
    forall k :: 0 <= k < |requests| && requests[k].ingress.ResourceName() == owner ==> !requests[k].ingress.shared
  }

  lemma PlaceStaysUnshared(lbs: seq<Balancer>, cl: nat, request: Request, maxCerts: int, j: nat)
    requires cl < |lbs| && j < |lbs| && j != cl && lbs[j].StackOwner() != "" && !lbs[j].shared
    requires request.ingress.ResourceName() == lbs[j].StackOwner() ==> !request.ingress.shared
    ensures !Place(lbs, cl, request, maxCerts)[j].shared
  {
  }

  /** If the owner's ingresses are not shared, its load balancer never counts as shared. */
  lemma {:induction false} OwnedStaysUnshared(start: seq<Balancer>, cl: nat, requests: seq<Request>, maxCerts: int, j: nat)
    requires cl < |start| && j < |start| && j != cl && start[j].StackOwner() != "" && !start[j].shared
    requires NoneShared(requests, start[j].StackOwner())
    ensures !PlaceAll(start, cl, requests, maxCerts)[j].shared
  {
    if requests != [] {
      var front := requests[..|requests| - 1];
      var before := PlaceAll(start, cl, front, maxCerts);
      OwnedStaysUnshared(start, cl, front, maxCerts, j);
      SettingsNeverChange(start, cl, front, maxCerts, j);
      hide PlaceAll, Place;
      PlaceStaysUnshared(before, cl, requests[|requests| - 1], maxCerts, j);
      PlaceAllStep(start, cl, requests, |requests| - 1, maxCerts);
      assert requests[..|requests|] == requests;
    }
  }

  /** An owned stack is rebuilt unshared. */
  lemma ModelStaysUnshared(listing: Listing, j: nat)
    requires j < |listing.Model()| && listing.Model()[j].StackOwner() != ""
    requires NoneShared(listing.Requests(), listing.Model()[j].StackOwner())
    ensures !listing.Model()[j].shared
  {
    hide Listing.Requests, Resolve, SortedStacks, NoneShared;
    var start, requests := listing.Start(), listing.Requests();
    StartIsPlain(listing);
    if j >= |start| {
      NewOnesHaveNoStack(start, |start| - 1, requests, listing.certsPerALB, j);
    } else {
      SettingsNeverChange(start, |start| - 1, requests, listing.certsPerALB, j);
      OwnedStaysUnshared(start, |start| - 1, requests, listing.certsPerALB, j);
    }
  }

  lemma ModelIsConsistent(listing: Listing)
    ensures AllConsistent(listing.Model())
  {
    hide Resolve, PlaceAll, BalancersOf, Consistent;
    var start, requests := listing.Start(), listing.Requests();
    StartIsPlain(listing);
    PlacementIsConsistent(start, |start| - 1, requests, listing.certsPerALB);
    var placed, model := listing.Placed(), listing.Model();
    forall j | 0 <= j < |model| ensures Consistent(model[j]) {
      AlarmsKeepConsistent(placed[j], model[j]);
    }
  }

  lemma AlarmsKeepConsistent(lb: Balancer, after: Balancer)
    requires Consistent(lb) && after == lb.(cwAlarms := after.cwAlarms)
    ensures Consistent(after)
  {
    forall ingress | after.Holds(ingress)
      ensures if after.clusterLocal then ingress.clusterLocal else AgreesWith(after, ingress)
    {
      assert lb.Holds(ingress) && after.StackOwner() == lb.StackOwner();
    }
  }

  // What an update writes.

  /** An update writes the owner again exactly if the load balancer is occupied. */
  lemma UpdateWritesOwner(config: Config, w: World, after: map<string, Record>, lb: Balancer, now: Time, cf: CfStack,
                          owner: string, subnets: seq<string>)
    requires Updates(config, w.stacks, after, lb, now, cf, owner, subnets) && AvoidsReservedTags(config.stackTags)
    requires Consistent(lb) && !lb.clusterLocal && lb.StackOwner() != ""
    ensures OwnerIn(cf) == lb.StackOwner() <==> Occupied(lb)
  {
    TagRoundTrip(cf, config.UpdateSpec(lb.stack.value.name, lb, now, owner, subnets));
    OwnerIsKept(lb, owner);
  }

  // Over runs.

  ghost predicate PendingOwned(pending: seq<Balancer>, name: string, owner: string) {
    forall k :: 0 <= k < |pending| && Concerns(pending[k], name) ==>
      pending[k].StackOwner() == owner && Consistent(pending[k]) && !pending[k].clusterLocal && Occupied(pending[k])
  }

  ghost predicate Owned(w: World, name: string, owner: string) {
    && name in w.used
    && (name in w.stacks ==> OwnerIn(w.stacks[name].cf) == owner && OwnerIn(w.stacks[name].saved) == owner)
    && PendingOwned(w.pending, name, owner)
  }

  /** In the cycle of this listing, some ingress is placed on the stack, and the owner's
      ingresses are not shared. */
  ghost predicate OwnerOccupies(listing: Listing, name: string, owner: string) {
    && NoneShared(listing.Requests(), owner)
    && forall k :: 0 <= k < |listing.Model()| && Concerns(listing.Model()[k], name) ==> listing.Model()[k].Required() != {}
  }

  lemma StartKeepsOwned(config: Config, w: World, w': World, listing: Listing, name: string, owner: string)
    requires Started(config, w, w', listing) && Owned(w, name, owner) && owner != ""
    requires OwnerOccupies(listing, name, owner)
    ensures Owned(w', name, owner)
  {
    hide Listing.Model, Listing.Requests, IsManagedStack, Consistent, NoneShared;
    ModelIsConsistent(listing);
    forall k | 0 <= k < |w'.pending| && Concerns(w'.pending[k], name)
      ensures w'.pending[k].StackOwner() == owner && !w'.pending[k].clusterLocal && Occupied(w'.pending[k])
    {
      var sl := ModelStack(listing, k);
      ReadOwner(config, w.stacks, sl);
      ModelStaysUnshared(listing, k);
    }
  }

  lemma ReadOwner(config: Config, stacks: map<string, Record>, sl: StackLBState)
    requires ListedFrom(config, stacks, sl)
    ensures sl.stack.ownerIngress == OwnerIn(stacks[sl.stack.name].cf)
  {
    hide IsManagedStack, CertificateKeys, RecordedCertificates;
  }

  lemma ActKeepsOwned(config: Config, w: World, w': World, step: Step, name: string, owner: string)
    requires step.Act? && Next(config, w, w', step) && Owned(w, name, owner) && owner != ""
    requires AvoidsReservedTags(config.stackTags)
    ensures Owned(w', name, owner)
  {
    hide WrittenFrom, Balancer.InSync, Consistent, OwnerIn, AvoidsReservedTags, Occupied;
    assert PendingOwned(w'.pending, name, owner) by {
      forall k | 0 <= k < |w'.pending| ensures w'.pending[k] == w.pending[k + 1] {
      }
    }
    if step.accepted {
      var lb := w.pending[0];
      if Concerns(lb, name) && lb.Status(w.clock, w.firstRun) == Update {
        UpdateWritesOwner(config, w, w'.stacks, lb, w'.clock, step.cf, step.owner, step.subnets);
      }
      if Concerns(lb, name) && lb.Status(w.clock, w.firstRun) == Delete {
        SameTagsSameOwner(w.stacks[name].cf, w'.stacks[name].cf);
      }
    }
  }

  lemma SameTagsSameOwner(cf: CfStack, cf': CfStack)
    requires cf'.tags == cf.tags
    ensures OwnerIn(cf') == OwnerIn(cf)
  {
  }

  lemma StepKeepsOwned(config: Config, w: World, w': World, step: Step, name: string, owner: string)
    requires Next(config, w, w', step) && Owned(w, name, owner) && owner != "" && AvoidsReservedTags(config.stackTags)
    requires step.StartCycle? ==> OwnerOccupies(step.listing, name, owner)
    ensures Owned(w', name, owner)
  {
    hide Started, Acted, Owned, Settled, RolledBack, Vanished, OwnerOccupies, AvoidsReservedTags;
    if step.StartCycle? {
      StartKeepsOwned(config, w, w', step.listing, name, owner);
    } else if step.Act? {
      ActKeepsOwned(config, w, w', step, name, owner);
    } else {
      OtherStepKeepsOwned(config, w, w', step, name, owner);
    }
  }

  lemma OtherStepKeepsOwned(config: Config, w: World, w': World, step: Step, name: string, owner: string)
    requires Next(config, w, w', step) && Owned(w, name, owner) && !step.StartCycle? && !step.Act?
    ensures Owned(w', name, owner)
  {
    hide Started, Acted, Consistent, Occupied;
  }

  ghost predicate StaysOccupied(run: Run, i: nat, j: nat, name: string, owner: string)
    requires i <= j <= |run.steps|
  {
    forall k :: i <= k < j && run.steps[k].StartCycle? ==> OwnerOccupies(run.steps[k].listing, name, owner)
  }

  lemma {:induction false} OwnedLasts(config: Config, run: Run, i: nat, j: nat, name: string, owner: string)
    requires run.Of(config) && i <= j < |run.worlds| && AvoidsReservedTags(config.stackTags)
    requires Owned(run.worlds[i], name, owner) && owner != "" && StaysOccupied(run, i, j, name, owner)
    ensures Owned(run.worlds[j], name, owner)
  {
    if i < j {
      var w, w', step := run.worlds[j - 1], run.worlds[j], run.steps[j - 1];
      assert Next(config, w, w', step);
      OwnedLasts(config, run, i, j - 1, name, owner);
      assert step.StartCycle? ==> OwnerOccupies(step.listing, name, owner);
      hide Next, Owned, OwnerOccupies, StaysOccupied, Run.Of, AvoidsReservedTags;
      StepKeepsOwned(config, w, w', step, name, owner);
    }
  }

  /** A stack stays its owner's as long as every cycle places an ingress on it and the
      owner's ingresses are not shared: through updates, failed and rolled back ones
      included, and restarts. (By UpdateWritesOwner, the first update in which one of the
      two does not hold gives the stack away.) */
  lemma StackStaysOwned(config: Config, run: Run, i: nat, j: nat, name: string, owner: string)
    requires run.Of(config) && Initial(run.worlds[0]) && i <= j < |run.worlds| && AvoidsReservedTags(config.stackTags)
    requires name in run.worlds[i].stacks && run.worlds[i].stacks[name].cf.status.Complete()
    requires Idle(run.worlds[i], name)
    requires OwnerIn(run.worlds[i].stacks[name].cf) == owner && owner != ""
    requires StaysOccupied(run, i, j, name, owner)
    ensures name in run.worlds[j].stacks ==> OwnerIn(run.worlds[j].stacks[name].cf) == owner
  {
    hide Run.Of, OwnerIn, StaysOccupied, Initial, AvoidsReservedTags;
    RunKeepsOrder(config, run, i);
    var record := run.worlds[i].stacks[name];
    assert OrderlyRecord(record, name);
    SameTagsSameOwner(record.cf, record.saved);
    OwnedLasts(config, run, i, j, name, owner);
  }
}
