/** The controller leaves the stacks of other controllers and other clusters alone, over
    whole runs (worker.go, aws/cf.go). */
module ForeignStacks {
  import opened Text
  import opened Clock
  import opened Stacks
  import opened LoadBalancers
  import opened Model
  import opened Reconciler
  import opened GracePeriods

  /** The tags name another controller, or they do not name the cluster. */
  ghost predicate Foreign(config: Config, cf: CfStack) {
    var tags := ToMap(cf.tags);
    || GetOr(tags, KUBERNETES_CREATOR_TAG) != config.controllerID
    || (GetOr(tags, CLUSTER_ID_TAG_PREFIX + config.clusterID) != RESOURCE_LIFECYCLE_OWNED
        && GetOr(tags, CLUSTER_ID_TAG) != config.clusterID)
  }

  /** The stacks of a controller with another name, or in another cluster, are foreign. */
  lemma OthersStacksAreForeign(config: Config, cf: CfStack, spec: StackSpec)
    requires WrittenFrom(cf, spec)
    requires spec.controllerID != config.controllerID
             || (NoClusterMarks(spec.tags) && config.clusterID != spec.clusterID && config.clusterID != "")
    ensures Foreign(config, cf)
  {
    CreatorRoundTrip(cf, spec);
    if NoClusterMarks(spec.tags) {
      ClusterRoundTrip(cf, spec, config.clusterID);
    }
  }

  ghost predicate StaysForeign(config: Config, w: World, name: string) {
    && name in w.used && Idle(w, name)
    && (name in w.stacks ==> Foreign(config, w.stacks[name].cf) && Foreign(config, w.stacks[name].saved))
  }

  /** What the controller does, as opposed to CloudFormation and time. */
  predicate ByController(step: Step) {
    step.StartCycle? || step.Act? || step.EndCycle? || step.Restart?
  }

  lemma ModelStackIsManaged(config: Config, w: World, listing: Listing, k: nat)
    requires Lists(config, w.stacks, listing.stacks) && k < |listing.Model()| && listing.Model()[k].stack.Some?
    ensures var name := listing.Model()[k].stack.value.name;
            name in w.stacks && IsManagedStack(w.stacks[name].cf.tags, config.clusterID, config.controllerID)
  {
    hide Listing.Model, Reads, IsManagedStack;
    var sl := ModelStack(listing, k);
    assert ListedFrom(config, w.stacks, sl);
  }

  lemma StartKeepsForeign(config: Config, w: World, w': World, listing: Listing, name: string)
    requires Started(config, w, w', listing) && StaysForeign(config, w, name)
    ensures StaysForeign(config, w', name)
  {
    forall k | 0 <= k < |w'.pending| ensures !Concerns(w'.pending[k], name) {
      if w'.pending[k].stack.Some? {
        ModelStackIsManaged(config, w, listing, k);
      }
    }
  }

  lemma ActKeepsForeign(
    config: Config, w: World, w': World, cf: CfStack, owner: string, subnets: seq<string>, accepted: bool, name: string)
    requires Acted(config, w, w', cf, owner, subnets, accepted) && StaysForeign(config, w, name)
    ensures StaysForeign(config, w', name) && SameRecord(w, w', name)
  {
    hide Creates, Updates, Deletes, Foreign, Balancer.Status;
    forall k | 0 <= k < |w'.pending| ensures !Concerns(w'.pending[k], name) {
      assert w'.pending[k] == w.pending[k + 1];
    }
    assert !Concerns(w.pending[0], name);
    ActLeavesOthers(config, w, w', cf, owner, subnets, accepted, name);
  }

  lemma StepKeepsForeign(config: Config, w: World, w': World, step: Step, name: string)
    requires Next(config, w, w', step) && StaysForeign(config, w, name)
    ensures StaysForeign(config, w', name)
    ensures ByController(step) ==> SameRecord(w, w', name)
    ensures name in w.stacks && w.stacks[name].cf.status.Complete() ==> SameRecord(w, w', name)
  {
    hide Started, Acted, StaysForeign, Settled, RolledBack, Vanished;
    if step.StartCycle? {
      StartKeepsForeign(config, w, w', step.listing, name);
      assert w'.stacks == w.stacks by { StartChangesNoStack(config, w, w', step.listing); }
    } else if step.Act? {
      ActKeepsForeign(config, w, w', step.cf, step.owner, step.subnets, step.accepted, name);
    } else {
      OtherStepKeepsForeign(config, w, w', step, name);
    }
  }

  lemma StartChangesNoStack(config: Config, w: World, w': World, listing: Listing)
    requires Started(config, w, w', listing)
    ensures w'.stacks == w.stacks
  {
    hide Lists, Listing.Model;
  }

  lemma SameTagsSameMarks(config: Config, cf: CfStack, cf': CfStack)
    requires cf'.tags == cf.tags
    ensures Foreign(config, cf') == Foreign(config, cf)
  {
  }

  lemma OtherStepKeepsForeign(config: Config, w: World, w': World, step: Step, name: string)
    requires Next(config, w, w', step) && StaysForeign(config, w, name) && !step.StartCycle? && !step.Act?
    ensures StaysForeign(config, w', name)
    ensures ByController(step) || (name in w.stacks && w.stacks[name].cf.status.Complete()) ==> SameRecord(w, w', name)
  {
    hide Started, Acted, Foreign;
    if name in w.stacks && name in w'.stacks {
      var cf, saved, cf' := w.stacks[name].cf, w.stacks[name].saved, w'.stacks[name].cf;
      assert cf'.tags == cf.tags || cf'.tags == saved.tags;
      if cf'.tags == cf.tags {
        SameTagsSameMarks(config, cf, cf');
      } else {
        SameTagsSameMarks(config, saved, cf');
      }
    }
  }

  lemma {:induction false} RunKeepsForeign(config: Config, run: Run, i: nat, j: nat, name: string)
    requires run.Of(config) && i <= j < |run.worlds| && StaysForeign(config, run.worlds[i], name)
    ensures StaysForeign(config, run.worlds[j], name)
    ensures name in run.worlds[i].stacks && run.worlds[i].stacks[name].cf.status.Complete() ==>
      SameRecord(run.worlds[i], run.worlds[j], name)
  {
    if i < j {
      hide Next, StaysForeign;
      RunKeepsForeign(config, run, i, j - 1, name);
      assert Next(config, run.worlds[j - 1], run.worlds[j], run.steps[j - 1]);
      StepKeepsForeign(config, run.worlds[j - 1], run.worlds[j], run.steps[j - 1], name);
    }
  }

  /** If a stack is marked as another controller's or another cluster's, and so is what it
      would be rolled back to, no step of the controller ever changes it; and once it is
      completed it stays exactly as it is. */
  lemma ForeignStacksAreLeftAlone(config: Config, run: Run, i: nat, j: nat, name: string)
    requires run.Of(config) && Initial(run.worlds[0]) && i <= j < |run.steps|
    requires name in run.worlds[0].stacks
    requires Foreign(config, run.worlds[0].stacks[name].cf) && Foreign(config, run.worlds[0].stacks[name].saved)
    ensures ByController(run.steps[j]) ==> SameRecord(run.worlds[j], run.worlds[j + 1], name)
    ensures name in run.worlds[i].stacks && run.worlds[i].stacks[name].cf.status.Complete() ==>
      SameRecord(run.worlds[i], run.worlds[j], name)
  {
    hide Run.Of, Foreign, Next;
    StepAt(config, run, j);
    RunKeepsForeign(config, run, 0, j, name);
    RunKeepsForeign(config, run, 0, i, name);
    RunKeepsForeign(config, run, i, j, name);
    StepKeepsForeign(config, run.worlds[j], run.worlds[j + 1], run.steps[j], name);
  }

  lemma StepAt(config: Config, run: Run, j: nat)
    requires run.Of(config) && j < |run.steps|
    ensures |run.worlds| == |run.steps| + 1 && Next(config, run.worlds[j], run.worlds[j + 1], run.steps[j])
  {
  }
}
