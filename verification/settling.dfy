/** Convergence as a property of runs: a cycle that creates everything, time for the
    stacks to be completed, and a second cycle that changes nothing (worker.go). */
module Settling {
  import opened Text
  import opened Clock
  import opened Stacks
  import opened Certificates
  import opened LoadBalancers
  import opened Model
  import opened Placements
  import opened Packing
  import opened Reconciler
  import opened GracePeriods
  import opened Safety
  import opened Convergence

  /** The stack of the k-th load balancer, in whatever state. */
  ghost predicate CreatedAt(config: Config, stacks: map<string, Record>, lb: Balancer, name: string) {
    name in stacks && stacks[name].cf.name == name && CreatedAs(config, stacks[name].cf, lb)
  }

  /** Stacks have been created for the load balancers 1 to n-1 of the model, and there
      are no others. */
  ghost predicate CreatedUpTo(config: Config, w: World, model: seq<Balancer>, names: seq<string>) {
    && 1 <= |names| <= |model| && DistinctStackNames(names)
    && (forall k :: 1 <= k < |names| ==> CreatedAt(config, w.stacks, model[k], names[k]) && names[k] in w.used)
    && (forall name :: name in w.stacks ==> exists k :: 1 <= k < |names| && names[k] == name)
  }

  lemma JustPlacedIsCreated(
    config: Config, w: World, w': World, cf: CfStack, owner: string, subnets: seq<string>, proto: Ingress)
    requires Acted(config, w, w', cf, owner, subnets, true)
    requires JustPlaced(w.pending[0], proto) && w.pending[0].ingresses.Keys != {}
    ensures Creates(config, w.stacks, w.used, w'.stacks, w.pending[0], cf, "", subnets)
    ensures w'.used == w.used + {cf.name} && w'.pending == w.pending[1..]
  {
    hide WrittenFrom, Balancer.Required, Balancer.InSync;
    assert w.pending[0].ingresses != map[];
  }

  lemma CreateNext(
    config: Config, w: World, w': World, cf: CfStack, subnets: seq<string>, model: seq<Balancer>, names: seq<string>)
    requires CreatedUpTo(config, w, model, names) && |names| < |model|
    requires Creates(config, w.stacks, w.used, w'.stacks, model[|names|], cf, "", subnets) && w'.used == w.used + {cf.name}
    ensures CreatedUpTo(config, w', model, names + [cf.name])
  {
    hide WrittenFrom, CreatedAs;
    CreatedNow(config, w, w'.stacks, model[|names|], cf, subnets);
    var after := names + [cf.name];
    forall k | 1 <= k < |after| ensures CreatedAt(config, w'.stacks, model[k], after[k]) && after[k] in w'.used {
      if k < |names| {
        assert CreatedAt(config, w.stacks, model[k], names[k]) && names[k] in w.used && names[k] != cf.name;
      }
    }
    forall name | name in w'.stacks ensures exists k :: 1 <= k < |after| && after[k] == name {
      if name == cf.name {
        assert after[|names|] == name;
      } else {
        var k :| 1 <= k < |names| && names[k] == name;
        assert after[k] == name;
      }
    }
  }

  lemma CreatedNow(config: Config, w: World, stacks: map<string, Record>, lb: Balancer, cf: CfStack, subnets: seq<string>)
    requires Creates(config, w.stacks, w.used, stacks, lb, cf, "", subnets)
    ensures CreatedAt(config, stacks, lb, cf.name)
  {
    assert WrittenFrom(cf, config.CreateSpec(cf.name, lb, "", subnets));
  }

  // The first cycle.

  /** Time passes and CloudFormation finishes what it is doing. */
  predicate Waiting(step: Step) {
    step.Tick? || step.Settle? || step.EndCycle?
  }

  /** A run that starts without stacks: a cycle over the first listing in which every
      request is accepted, a pause, and the start of a cycle over the second listing. */
  ghost predicate TwoCycleRun(config: Config, run: Run, first: Listing, second: Listing) {
    && run.Of(config) && AvoidsReservedTags(config.stackTags)
    && run.worlds[0].stacks == map[]
    && |first.Model()| + 1 < |run.steps|
    && run.steps[0] == StartCycle(first)
    && (forall i :: 1 <= i <= |first.Model()| ==> run.steps[i].Act? && run.steps[i].accepted)
    && (forall i :: |first.Model()| < i < |run.steps| - 1 ==> Waiting(run.steps[i]))
    && run.steps[|run.steps| - 1] == StartCycle(second)
  }

  lemma AnyOf<T>(s: seq<T>) returns (x: T)
    requires s != []
    ensures x in s
  {
    x := s[0];
  }

  lemma NoStacksListed(config: Config, w: World, w': World, listing: Listing)
    requires Started(config, w, w', listing) && w.stacks == map[]
    ensures listing.stacks == []
  {
    if listing.stacks != [] {
      var _ := AnyOf(listing.stacks);
    }
  }

  /** After n accepted requests the stacks of the first n load balancers exist. */
  lemma {:induction false} FirstCycleCreates(
    config: Config, run: Run, first: Listing, second: Listing, proto: Ingress, n: nat)
    returns (names: seq<string>)
    requires TwoCycleRun(config, run, first, second) && UniformListing(config, first, proto)
    requires 1 <= n <= |first.Model()|
    ensures |names| == n && CreatedUpTo(config, run.worlds[n + 1], first.Model(), names)
    ensures run.worlds[n + 1].pending == first.Model()[n..]
  {
    hide UniformListing, Started, Acted, Listing.Model, AvoidsReservedTags, CreatedUpTo, JustPlaced;
    var model, w, w' := first.Model(), run.worlds[n], run.worlds[n + 1];
    assert Next(config, run.worlds[0], run.worlds[1], run.steps[0]);
    NoStacksListed(config, run.worlds[0], run.worlds[1], first);
    FirstModelFacts(config, first, proto);
    assert Next(config, w, w', run.steps[n]);
    var step := run.steps[n];
    if n == 1 {
      names := [""];
      StartLeadsToModel(config, run.worlds[0], w, first);
      ClusterLocalIsSkipped(config, w, w', step);
      NoneCreated(config, w', model);
      assert model[0..] == model;
    } else {
      names := FirstCycleCreates(config, run, first, second, proto, n - 1);
      assert w.pending[0] == model[n - 1] && w.pending[1..] == model[n..];
      JustPlacedIsCreated(config, w, w', step.cf, step.owner, step.subnets, proto);
      CreateNext(config, w, w', step.cf, step.subnets, model, names);
      names := names + [step.cf.name];
    }
  }

  lemma FirstModelFacts(config: Config, first: Listing, proto: Ingress)
    requires UniformListing(config, first, proto) && first.stacks == []
    ensures |first.Model()| > 0 && first.Model()[0].clusterLocal
    ensures forall j :: 1 <= j < |first.Model()| ==>
      JustPlaced(first.Model()[j], proto) && first.Model()[j].ingresses.Keys != {}
  {
    hide Uniform, JustPlaced, Listing.Model, DisjointKeys, Filled, Covered, Like, Needed;
    FirstModel(config, first, proto);
    forall j | 1 <= j < |first.Model()| ensures first.Model()[j].ingresses.Keys != {} {
      assert |first.Model()[j].ingresses| > 0;
    }
  }

  lemma StartLeadsToModel(config: Config, w: World, w': World, listing: Listing)
    requires Started(config, w, w', listing)
    ensures w'.pending == listing.Model() && w'.stacks == w.stacks
  {
  }

  lemma ClusterLocalIsSkipped(config: Config, w: World, w': World, step: Step)
    requires step.Act? && Next(config, w, w', step) && w.pending != [] && w.pending[0].clusterLocal
    ensures w'.stacks == w.stacks && w'.pending == w.pending[1..]
  {
    hide WrittenFrom;
  }

  lemma NoneCreated(config: Config, w: World, model: seq<Balancer>)
    requires w.stacks == map[] && |model| > 0
    ensures CreatedUpTo(config, w, model, [""])
  {
  }

  // The pause.

  lemma WaitingKeepsCreated(config: Config, w: World, w': World, step: Step, model: seq<Balancer>, names: seq<string>)
    requires Next(config, w, w', step) && Waiting(step) && CreatedUpTo(config, w, model, names)
    ensures CreatedUpTo(config, w', model, names) && w'.pending == w.pending
  {
    hide CreatedAs, Acted, Started;
    forall k | 1 <= k < |names| ensures CreatedAt(config, w'.stacks, model[k], names[k]) {
      assert CreatedAt(config, w.stacks, model[k], names[k]);
      SameTagsCreated(config, w.stacks[names[k]].cf, w'.stacks[names[k]].cf, model[k]);
    }
  }

  lemma SameTagsCreated(config: Config, cf: CfStack, cf': CfStack, lb: Balancer)
    requires CreatedAs(config, cf, lb)
    requires cf'.name == cf.name && cf'.tags == cf.tags && cf'.parameters == cf.parameters
    ensures CreatedAs(config, cf', lb)
  {
    var subnets :| WrittenFrom(cf, config.CreateSpec(cf.name, lb, "", subnets));
    assert WrittenFrom(cf', config.CreateSpec(cf.name, lb, "", subnets));
  }

  lemma {:induction false} PauseKeepsCreated(
    config: Config, run: Run, first: Listing, second: Listing, proto: Ingress, i: nat) returns (names: seq<string>)
    requires TwoCycleRun(config, run, first, second) && UniformListing(config, first, proto) && |first.Model()| > 0
    requires |first.Model()| < i < |run.steps|
    ensures |names| == |first.Model()| && CreatedUpTo(config, run.worlds[i], first.Model(), names)
  {
    hide UniformListing, Next, Listing.Model, AvoidsReservedTags, CreatedUpTo;
    if i == |first.Model()| + 1 {
      names := FirstCycleCreates(config, run, first, second, proto, |first.Model()|);
    } else {
      names := PauseKeepsCreated(config, run, first, second, proto, i - 1);
      assert Next(config, run.worlds[i - 1], run.worlds[i], run.steps[i - 1]);
      WaitingKeepsCreated(config, run.worlds[i - 1], run.worlds[i], run.steps[i - 1], first.Model(), names);
    }
  }

  // The second cycle.

  ghost predicate AllComplete(stacks: map<string, Record>) {
    forall name :: name in stacks ==> stacks[name].cf.status.CreateComplete?
  }

  lemma ListedIsRepresented(
    config: Config, w: World, model: seq<Balancer>, names: seq<string>, sl: StackLBState, k: nat)
    requires CreatedUpTo(config, w, model, names) && |names| == |model| && AllComplete(w.stacks)
    requires AvoidsReservedTags(config.stackTags)
    requires 1 <= k < |names| && names[k] == sl.stack.name && ListedFrom(config, w.stacks, sl)
    ensures Represents(config, model, names, sl, k)
  {
    hide StandsFor, ManagedStack, CreatedAs, AvoidsReservedTags, IsManagedStack;
    assert CreatedAt(config, w.stacks, model[k], names[k]);
    CreatedStandsFor(config, w.stacks[names[k]].cf, model[k]);
  }

  lemma ListingMirrors(
    config: Config, w: World, model: seq<Balancer>, names: seq<string>, listed: seq<StackLBState>)
    requires CreatedUpTo(config, w, model, names) && |names| == |model| && AllComplete(w.stacks)
    requires Lists(config, w.stacks, listed) && AvoidsReservedTags(config.stackTags)
    ensures Mirrors(config, model, names, listed)
  {
    hide AvoidsReservedTags, Represents, Reads, CreatedAs;
    forall sl | sl in listed ensures exists k :: Represents(config, model, names, sl, k) {
      assert ListedFrom(config, w.stacks, sl);
      var k :| 1 <= k < |names| && names[k] == sl.stack.name;
      ListedIsRepresented(config, w, model, names, sl, k);
    }
    forall k | 1 <= k < |model| ensures IsListed(config, model, names, listed, k) {
      assert CreatedAt(config, w.stacks, model[k], names[k]);
      CreatedStandsFor(config, w.stacks[names[k]].cf, model[k]);
      var sl :| sl in listed && sl.stack.name == names[k];
      assert ListedFrom(config, w.stacks, sl);
      ListedIsRepresented(config, w, model, names, sl, k);
    }
  }

  /** Start without stacks, with shared ingresses of the same settings that need one
      certificate each. After one cycle of successful creations, and once the stacks are
      completed, the next cycle that is not a first one finds nothing to do, for the same
      ingresses in any order and whenever it looks: every load balancer is ready. This is
      so exactly if the ingresses have an SSL policy. (They do in the program, which fills in
      its default when it lists them; without one the stacks would get the default policy,
      and the controller would ask for updates for ever.) */
  lemma SecondCycleChangesNothing(config: Config, run: Run, first: Listing, second: Listing, proto: Ingress, i: nat, now: Time)
    requires TwoCycleRun(config, run, first, second)
    requires UniformListing(config, first, proto) && UniformListing(config, second, proto)
    requires Needed(second.Requests()) == Needed(first.Requests()) && second.cwAlarms == first.cwAlarms
    requires config.sslPolicy != "" && AllComplete(run.worlds[|run.steps| - 1].stacks)
    requires !run.worlds[|run.steps|].firstRun && i < |run.worlds[|run.steps|].pending|
    ensures run.worlds[|run.steps|].pending == second.Model()
    ensures StatusIs(run.worlds[|run.steps|].pending[i], now,
                     if i == |second.stacks| || proto.sslPolicy != "" then Ready else Update)
  {
    hide UniformListing, Listing.Model, Listing.Requests, AvoidsReservedTags, CreatedUpTo, Needed, StatusIs, AllComplete, Lists,
         Mirrors, Acted;
    var m := |run.steps| - 1;
    assert Next(config, run.worlds[0], run.worlds[1], run.steps[0]);
    NoStacksListed(config, run.worlds[0], run.worlds[1], first);
    FirstModelFacts(config, first, proto);
    assert Next(config, run.worlds[m], run.worlds[m + 1], run.steps[m]);
    StartLeadsToModel(config, run.worlds[m], run.worlds[m + 1], second);
    assert Lists(config, run.worlds[m].stacks, second.stacks) && AvoidsReservedTags(config.stackTags);
    var names := PauseKeepsCreated(config, run, first, second, proto, m);
    hide TwoCycleRun, Next;
    ListingMirrors(config, run.worlds[m], first.Model(), names, second.stacks);
    SecondCycleHasNothingToDo(config, first, second, proto, names, i, now);
  }

  /** In particular when the second cycle lists the same ingresses, with the same
      certificates found for them, in another order. */
  lemma ReorderedIngressesChangeNothing(
    config: Config, run: Run, first: Listing, second: Listing, proto: Ingress, i: nat, now: Time)
    requires TwoCycleRun(config, run, first, second)
    requires UniformListing(config, first, proto) && second.certsPerALB == config.certsPerALB
    requires multiset(second.Requests()) == multiset(first.Requests()) && second.cwAlarms == first.cwAlarms
    requires config.sslPolicy != "" && AllComplete(run.worlds[|run.steps| - 1].stacks)
    requires !run.worlds[|run.steps|].firstRun && i < |run.worlds[|run.steps|].pending|
    ensures StatusIs(run.worlds[|run.steps|].pending[i], now,
                     if i == |second.stacks| || proto.sslPolicy != "" then Ready else Update)
  {
    hide TwoCycleRun, Listing.Requests, AllComplete, StatusIs, Needed, Uniform;
    NeededIgnoresOrder(first.Requests(), second.Requests(), proto);
    SecondCycleChangesNothing(config, run, first, second, proto, i, now);
  }
}
