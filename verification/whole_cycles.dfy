/** What a whole cycle achieves (worker.go): once every load balancer has had its turn, and
    with the requests granted, the stacks record what the ingresses need. */
module WholeCycles {
  import opened Text
  import opened Clock
  import opened Sorting
  import opened Stacks
  import opened Certificates
  import opened LoadBalancers
  import opened Matching
  import opened Model
  import opened Placements
  import opened Reconciler
  import opened GracePeriods
  import Ownership
  import opened Convergence
  import opened Worker
  import opened Resolution
  import opened Decisions

  // The model of a listing, by position.

  lemma ModelStackAt(listing: Listing, k: nat)
    requires k < |listing.Model()|
    ensures |SortedStacks(listing.stacks)| == |listing.stacks| < |listing.Model()|
    ensures var lb := listing.Model()[k];
            && (lb.clusterLocal <==> k == |listing.stacks|)
            && (lb.stack.Some? <==> k < |listing.stacks|)
            && (k < |listing.stacks| ==>
                  lb.stack == Some(SortedStacks(listing.stacks)[k].stack) && lb.state == SortedStacks(listing.stacks)[k].state)
  {
    var start, requests := listing.Start(), listing.Requests();
    StartIsPlain(listing);
    SortedStacksAreSorted(listing.stacks);
    hide SortedStacks, Resolve, WithGlobalWAF, SortedBy;
    if k < |start| {
      SettingsNeverChange(start, |start| - 1, requests, listing.certsPerALB, k);
    } else {
      NewOnesHaveNoStack(start, |start| - 1, requests, listing.certsPerALB, k);
      PlacementIsConsistent(start, |start| - 1, requests, listing.certsPerALB);
    }
  }

  /** Every listed stack has a load balancer, and only one. */
  lemma StacksAreModelledOnce(config: Config, stacks: map<string, Record>, listing: Listing, name: string, j: nat, k: nat)
    requires Lists(config, stacks, listing.stacks) && j < |listing.Model()| && k < |listing.Model()|
    requires Concerns(listing.Model()[j], name) && Concerns(listing.Model()[k], name)
    ensures j == k
  {
    hide Listing.Model, ListedFrom, SortedBy, SortedStacks;
    var sorted := SortedStacks(listing.stacks);
    ModelStackAt(listing, j);
    ModelStackAt(listing, k);
    SortedStacksAreSorted(listing.stacks);
    DuplicatesAreCounted(listing.stacks);
    DuplicatesAreCounted(sorted);
    assert sorted[j] in multiset(sorted) && sorted[k] in multiset(sorted);
    assert sorted[j] in listing.stacks && sorted[k] in listing.stacks;
  }

  /** A new load balancer only has certificates in use. */
  lemma NewOnesAreInUse(listing: Listing, k: nat, arn: string)
    requires |listing.stacks| < k < |listing.Model()| && arn in listing.Model()[k].ingresses
    ensures InUse(listing.Model()[k], arn)
  {
    var start, requests := listing.Start(), listing.Requests();
    SortedStacksAreSorted(listing.stacks);
    hide SortedStacks, Resolve, WithGlobalWAF, SortedBy, PlaceAll;
    Conservation(start, |start| - 1, requests, listing.certsPerALB, k, arn);
  }

  /** The ingresses of a stack are patched with its DNS name exactly once it has settled and its
      load balancer is active and old enough; those of a new load balancer are not patched, and
      cluster-local ones get the cluster-local domain. */
  lemma HostnameOfReadyStacks(listing: Listing, k: nat, minLoadBalancerAge: Duration, now: Time)
    requires k < |listing.Model()|
    ensures |SortedStacks(listing.stacks)| == |listing.stacks|
    ensures var hostname := PatchedHostname(listing.Model()[k], minLoadBalancerAge, now);
            && (k == |listing.stacks| ==> hostname == Some(".cluster.local"))
            && (k > |listing.stacks| ==> hostname == None)
            && (k < |listing.stacks| ==>
                  var sl := SortedStacks(listing.stacks)[k];
                  && (hostname.Some? <==>
                        && HasSettled(sl.stack) && sl.state.Some? && sl.state.value.active
                        && sl.state.value.createdTime + minLoadBalancerAge <= now)
                  && (hostname.Some? ==> hostname.value == ToLower(sl.stack.dnsName)))
  {
    ModelStackAt(listing, k);
    hide Listing.Model, ToLower, SortedStacks;
  }

  // The turns of a cycle.

  lemma TurnOf(
    config: Config, rejects: set<Worker.Request>, names: nat -> string, run: Run, from: World, to: World, listing: Listing, k: nat)
    requires Cycle(config, rejects, names, run, from, to, listing) && listing.certs != [] && k < |listing.Model()|
    ensures |run.worlds| == |listing.Model()| + 3 && |run.steps| == |listing.Model()| + 2
    ensures Dutiful(config, rejects, run.worlds[k + 1], run.steps[k + 1], names(k))
    ensures Next(config, run.worlds[k + 1], run.worlds[k + 2], run.steps[k + 1])
    ensures var step := run.steps[k + 1];
            step.Act? && Acted(config, run.worlds[k + 1], run.worlds[k + 2], step.cf, step.owner, step.subnets, step.accepted)
  {
    hide Dutiful, Listing.Model, Acted, Started;
    assert Next(config, run.worlds[k + 1], run.worlds[k + 2], run.steps[k + 1]);
    DutifulIsAct(config, rejects, run.worlds[k + 1], run.steps[k + 1], names(k));
  }

  lemma DutifulIsAct(config: Config, rejects: set<Worker.Request>, w: World, step: Step, name: string)
    requires Dutiful(config, rejects, w, step, name)
    ensures step.Act?
  {
  }

  lemma FirstTurn(
    config: Config, rejects: set<Worker.Request>, names: nat -> string, run: Run, from: World, to: World, listing: Listing)
    requires Cycle(config, rejects, names, run, from, to, listing) && listing.certs != []
    ensures Started(config, from, run.worlds[1], listing) && run.worlds[1].pending == listing.Model()
    ensures from.clock == run.worlds[1].clock && from.used == run.worlds[1].used && from.firstRun == run.worlds[1].firstRun
    ensures from.stacks == run.worlds[1].stacks
  {
    hide Listing.Model, Lists, Dutiful, Acted, RolledBack, Vanished, Reconciler.Settled;
    assert Next(config, run.worlds[0], run.worlds[1], run.steps[0]);
  }

  lemma TurnAdvances(config: Config, w: World, w': World, step: Step)
    requires Next(config, w, w', step) && step.Act?
    ensures w.pending != [] && w'.pending == w.pending[1..] && w'.firstRun == w.firstRun
    ensures w.clock <= w'.clock && w.used <= w'.used
  {
    hide Creates, Updates, Deletes, Balancer.Status, Balancer.Grounded;
  }

  /** Before the i-th turn. */
  lemma {:induction false} WorldsOfCycle(
    config: Config, rejects: set<Worker.Request>, names: nat -> string, run: Run, from: World, to: World, listing: Listing, i: nat)
    requires Cycle(config, rejects, names, run, from, to, listing) && listing.certs != [] && i <= |listing.Model()|
    ensures |run.worlds| == |listing.Model()| + 3
    ensures var w := run.worlds[i + 1];
            && w.pending == listing.Model()[i..] && w.firstRun == from.firstRun
            && from.clock <= w.clock && from.used <= w.used
  {
    if i == 0 {
      FirstTurn(config, rejects, names, run, from, to, listing);
      assert |run.worlds| == |listing.Model()| + 3;
    } else {
      hide Next, Dutiful, Listing.Model;
      WorldsOfCycle(config, rejects, names, run, from, to, listing, i - 1);
      TurnOf(config, rejects, names, run, from, to, listing, i - 1);
      TurnAdvances(config, run.worlds[i], run.worlds[i + 1], run.steps[i]);
    }
  }

  ghost predicate NoneConcerns(lbs: seq<Balancer>, i: nat, j: nat, name: string) {
    forall k :: i <= k < j && k < |lbs| ==> !Concerns(lbs[k], name)
  }

  lemma {:induction false} RecordKept(
    config: Config, rejects: set<Worker.Request>, names: nat -> string, run: Run, from: World, to: World, listing: Listing,
    i: nat, j: nat, name: string)
    requires Cycle(config, rejects, names, run, from, to, listing) && listing.certs != [] && i <= j <= |listing.Model()|
    requires |run.worlds| == |listing.Model()| + 3 && name in run.worlds[i + 1].used
    requires NoneConcerns(listing.Model(), i, j, name)
    ensures name in run.worlds[j + 1].used && SameRecord(run.worlds[i + 1], run.worlds[j + 1], name)
  {
    hide Next, Dutiful, Listing.Model, Acted, Cycle, SameRecord, NoneConcerns, Concerns;
    if i == j {
      SameAsItself(run.worlds[i + 1], name);
    } else {
      FewerConcern(listing.Model(), i, j, name);
      RecordKept(config, rejects, names, run, from, to, listing, i, j - 1, name);
      RecordKeptInTurn(config, rejects, names, run, from, to, listing, j - 1, name);
      SameAgain(run.worlds[i + 1], run.worlds[j], run.worlds[j + 1], name);
    }
  }

  lemma RecordKeptInTurn(
    config: Config, rejects: set<Worker.Request>, names: nat -> string, run: Run, from: World, to: World, listing: Listing,
    k: nat, name: string)
    requires Cycle(config, rejects, names, run, from, to, listing) && listing.certs != [] && k < |listing.Model()|
    requires |run.worlds| == |listing.Model()| + 3 && name in run.worlds[k + 1].used && !Concerns(listing.Model()[k], name)
    ensures name in run.worlds[k + 2].used && SameRecord(run.worlds[k + 1], run.worlds[k + 2], name)
  {
    hide Next, Dutiful, Listing.Model, Acted, Cycle, SameRecord, Concerns;
    WorldsOfCycle(config, rejects, names, run, from, to, listing, k);
    TurnOf(config, rejects, names, run, from, to, listing, k);
    var step := run.steps[k + 1];
    ActLeavesOthers(config, run.worlds[k + 1], run.worlds[k + 2], step.cf, step.owner, step.subnets, step.accepted, name);
  }

  lemma FewerConcern(lbs: seq<Balancer>, i: nat, j: nat, name: string)
    requires NoneConcerns(lbs, i, j, name) && i < j <= |lbs|
    ensures NoneConcerns(lbs, i, j - 1, name) && !Concerns(lbs[j - 1], name)
  {
    hide Concerns;
  }

  lemma SameAsItself(w: World, name: string)
    ensures SameRecord(w, w, name)
  {
  }

  lemma SameAgain(a: World, b: World, c: World, name: string)
    requires SameRecord(a, b, name) && SameRecord(b, c, name)
    ensures SameRecord(a, c, name)
  {
  }

  lemma EndOfCycle(
    config: Config, rejects: set<Worker.Request>, names: nat -> string, run: Run, from: World, to: World, listing: Listing)
    requires Cycle(config, rejects, names, run, from, to, listing) && listing.certs != []
    ensures |run.worlds| == |listing.Model()| + 3 && to.stacks == run.worlds[|listing.Model()| + 1].stacks
  {
    var n := |run.steps|;
    hide Dutiful, Listing.Model, Started, Acted, RolledBack, Vanished, Reconciler.Settled;
    assert Next(config, run.worlds[n - 1], run.worlds[n], run.steps[n - 1]);
  }

  // The stacks after the cycle.

  /** What the k-th load balancer asks for is not rejected: the update of a settled stack that
      is not due for deletion when its turn comes, or the creation of a new one. */
  ghost predicate Granted(
    config: Config, rejects: set<Worker.Request>, names: nat -> string, run: Run, listing: Listing, k: nat)
    requires k < |listing.Model()| && |run.worlds| > k + 1
  {
    var lb := listing.Model()[k];
    match lb.stack
    case Some(stack) =>
      && HasSettled(stack) && !Due(stack, run.worlds[k + 1].clock)
      && lb.sslPolicy in config.sslPolicies && Updating(stack.name) !in rejects
    case None =>
      && (if lb.sslPolicy == "" then config.sslPolicy else lb.sslPolicy) in config.sslPolicies
      && Creating(names(k)) !in rejects
  }

  lemma StackBefore(config: Config, from: World, started: World, listing: Listing, k: nat)
    requires Started(config, from, started, listing) && Orderly(from)
    requires k < |listing.Model()| && listing.Model()[k].stack.Some?
    ensures var lb := listing.Model()[k];
            && lb.stack.value.name in from.stacks && lb.stack.value.name in from.used
            && BuiltFrom(config, lb, from.stacks[lb.stack.value.name].cf, listing.certs)
  {
    hide Listing.Model, Reads, IsManagedStack;
    var sl := ModelStack(listing, k);
    assert ListedFrom(config, from.stacks, sl);
  }

  lemma StartLists(config: Config, w: World, w': World, listing: Listing)
    requires Started(config, w, w', listing)
    ensures Lists(config, w.stacks, listing.stacks)
  {
    hide Lists, Listing.Model;
  }

  /** Nothing else in the cycle concerns the stack. */
  lemma OnlyOneConcerns(config: Config, from: World, started: World, listing: Listing, k: nat)
    requires Started(config, from, started, listing)
    requires k < |listing.Model()| && listing.Model()[k].stack.Some?
    ensures forall m :: 0 <= m < |listing.Model()| && m != k ==>
      !Concerns(listing.Model()[m], listing.Model()[k].stack.value.name)
  {
    hide Started, Listing.Model, Lists;
    StartLists(config, from, started, listing);
    var name := listing.Model()[k].stack.value.name;
    forall m | 0 <= m < |listing.Model()| && m != k ensures !Concerns(listing.Model()[m], name) {
      if Concerns(listing.Model()[m], name) {
        StacksAreModelledOnce(config, from.stacks, listing, name, m, k);
      }
    }
  }

  /** After the turn of its load balancer a stack is up to date. */
  lemma StackAfterTurn(
    config: Config, rejects: set<Worker.Request>, names: nat -> string, run: Run, from: World, to: World, listing: Listing, k: nat)
    requires Cycle(config, rejects, names, run, from, to, listing) && listing.certs != []
    requires Orderly(from) && AvoidsReservedTags(config.stackTags) && from.clock + config.certTTL >= SECOND
    requires |run.worlds| == |listing.Model()| + 3 && k < |listing.Model()| && listing.Model()[k].stack.Some?
    requires Granted(config, rejects, names, run, listing, k)
    ensures var lb := listing.Model()[k];
            && lb.stack.value.name in run.worlds[k + 2].used && lb.stack.value.name in run.worlds[k + 2].stacks
            && UpToDate(run.worlds[k + 2].stacks[lb.stack.value.name].cf, lb, listing.certs, lb.sslPolicy)
  {
    hide Next, Dutiful, Listing.Model, Acted, Cycle, Started, UpToDate, BuiltFrom, Orderly, AvoidsReservedTags, HasSettled, Due, Lists;
    var lb := listing.Model()[k];
    var name, w := lb.stack.value.name, run.worlds[k + 1];
    FirstTurn(config, rejects, names, run, from, to, listing);
    StackBefore(config, from, run.worlds[1], listing, k);
    OnlyOneConcerns(config, from, run.worlds[1], listing, k);
    WorldsOfCycle(config, rejects, names, run, from, to, listing, k);
    RecordKept(config, rejects, names, run, from, to, listing, 0, k, name);
    TurnOf(config, rejects, names, run, from, to, listing, k);
    TurnBringsUpToDate(config, rejects, w, run.worlds[k + 2], run.steps[k + 1], names(k), listing.certs);
    TurnAdvances(config, w, run.worlds[k + 2], run.steps[k + 1]);
  }

  /** After a cycle in which its request is granted, a settled stack that was not due for
      deletion records each certificate that an ingress placed on it needs as required, of
      the others only available ones with a deadline, and the settings of the model. */
  lemma CycleBringsUpToDate(
    config: Config, rejects: set<Worker.Request>, names: nat -> string, run: Run, from: World, to: World, listing: Listing, k: nat)
    requires Cycle(config, rejects, names, run, from, to, listing) && listing.certs != []
    requires Orderly(from) && AvoidsReservedTags(config.stackTags) && from.clock + config.certTTL >= SECOND
    requires |run.worlds| == |listing.Model()| + 3 && k < |listing.Model()| && listing.Model()[k].stack.Some?
    requires Granted(config, rejects, names, run, listing, k)
    ensures var lb := listing.Model()[k];
            && lb.stack.value.name in to.stacks
            && UpToDate(to.stacks[lb.stack.value.name].cf, lb, listing.certs, lb.sslPolicy)
  {
    hide Next, Dutiful, Listing.Model, Acted, Cycle, Started, UpToDate, Orderly, AvoidsReservedTags, Granted;
    var n, name := |listing.Model()|, listing.Model()[k].stack.value.name;
    FirstTurn(config, rejects, names, run, from, to, listing);
    OnlyOneConcerns(config, from, run.worlds[1], listing, k);
    StackAfterTurn(config, rejects, names, run, from, to, listing, k);
    RecordKept(config, rejects, names, run, from, to, listing, k + 1, n, name);
    EndOfCycle(config, rejects, names, run, from, to, listing);
  }

  /** After the turn of a new load balancer its stack is there. */
  lemma StackCreatedInTurn(
    config: Config, rejects: set<Worker.Request>, names: nat -> string, run: Run, from: World, to: World, listing: Listing, k: nat)
    requires Cycle(config, rejects, names, run, from, to, listing) && listing.certs != [] && AvoidsReservedTags(config.stackTags)
    requires |run.worlds| == |listing.Model()| + 3 && |listing.stacks| < k < |listing.Model()|
    requires Granted(config, rejects, names, run, listing, k)
    ensures names(k) !in from.used && names(k) in run.worlds[k + 2].used && names(k) in run.worlds[k + 2].stacks
    ensures var lb := listing.Model()[k];
            UpToDate(run.worlds[k + 2].stacks[names(k)].cf, lb, listing.certs,
                     if lb.sslPolicy == "" then config.sslPolicy else lb.sslPolicy)
  {
    hide Next, Dutiful, Listing.Model, Acted, Cycle, UpToDate, AvoidsReservedTags, InUse;
    ModelStackAt(listing, k);
    forall arn | arn in listing.Model()[k].ingresses ensures InUse(listing.Model()[k], arn) {
      NewOnesAreInUse(listing, k, arn);
    }
    WorldsOfCycle(config, rejects, names, run, from, to, listing, k);
    TurnOf(config, rejects, names, run, from, to, listing, k);
    assert run.worlds[k + 1].pending[0] == listing.Model()[k];
    TurnCreates(config, rejects, run.worlds[k + 1], run.worlds[k + 2], run.steps[k + 1], names(k), listing.certs);
  }

  /** After a cycle in which its request is granted, a new load balancer has a stack of its
      own that is up to date. */
  lemma CycleCreates(
    config: Config, rejects: set<Worker.Request>, names: nat -> string, run: Run, from: World, to: World, listing: Listing, k: nat)
    requires Cycle(config, rejects, names, run, from, to, listing) && listing.certs != []
    requires Orderly(from) && AvoidsReservedTags(config.stackTags)
    requires |run.worlds| == |listing.Model()| + 3 && |listing.stacks| < k < |listing.Model()|
    requires Granted(config, rejects, names, run, listing, k)
    ensures var lb := listing.Model()[k];
            && names(k) !in from.stacks && names(k) in to.stacks
            && UpToDate(to.stacks[names(k)].cf, lb, listing.certs, if lb.sslPolicy == "" then config.sslPolicy else lb.sslPolicy)
  {
    hide Next, Dutiful, Listing.Model, Acted, Cycle, UpToDate, AvoidsReservedTags, Granted;
    StackCreatedInTurn(config, rejects, names, run, from, to, listing, k);
    assert names(k) !in from.stacks;
    forall m | k < m < |listing.Model()| ensures !Concerns(listing.Model()[m], names(k)) {
      ModelStackAt(listing, m);
    }
    RecordKept(config, rejects, names, run, from, to, listing, k + 1, |listing.Model()|, names(k));
    EndOfCycle(config, rejects, names, run, from, to, listing);
  }

  /** A stack that is due for deletion when its turn comes is being deleted after the cycle,
      unless the request is rejected. */
  lemma CycleDeletes(
    config: Config, rejects: set<Worker.Request>, names: nat -> string, run: Run, from: World, to: World, listing: Listing, k: nat)
    requires Cycle(config, rejects, names, run, from, to, listing) && listing.certs != [] && Orderly(from)
    requires |run.worlds| == |listing.Model()| + 3 && k < |listing.Model()| && listing.Model()[k].stack.Some?
    requires var stack := listing.Model()[k].stack.value;
             Due(stack, run.worlds[k + 1].clock) && Deleting(stack.name) !in rejects
    ensures var name := listing.Model()[k].stack.value.name;
            && name in from.stacks && name in to.stacks
            && to.stacks[name].cf == from.stacks[name].cf.(status := DeleteInProgress)
  {
    hide Next, Dutiful, Listing.Model, Acted, Cycle, Started, BuiltFrom, Orderly, Due;
    var name, w, w' := listing.Model()[k].stack.value.name, run.worlds[k + 1], run.worlds[k + 2];
    ModelStackAt(listing, k);
    FirstTurn(config, rejects, names, run, from, to, listing);
    StackBefore(config, from, run.worlds[1], listing, k);
    OnlyOneConcerns(config, from, run.worlds[1], listing, k);
    WorldsOfCycle(config, rejects, names, run, from, to, listing, k);
    RecordKept(config, rejects, names, run, from, to, listing, 0, k, name);
    TurnOf(config, rejects, names, run, from, to, listing, k);
    TurnDeletes(config, rejects, w, w', run.steps[k + 1], names(k));
    TurnAdvances(config, w, w', run.steps[k + 1]);
    RecordKept(config, rejects, names, run, from, to, listing, k + 1, |listing.Model()|, name);
    EndOfCycle(config, rejects, names, run, from, to, listing);
  }

  // From the ingresses to the stacks.

  /** The request of each load balancer that holds the ingress is granted. */
  ghost predicate GrantedFor(
    config: Config, rejects: set<Worker.Request>, names: nat -> string, run: Run, listing: Listing, ingress: Ingress)
    requires |run.worlds| == |listing.Model()| + 3
  {
    forall k: nat, arn :: HeldAt(listing, ingress, k, arn) ==> Granted(config, rejects, names, run, listing, k)
  }

  /** The stack has what the ingress needs: its pinned certificate, or a best one for each of
      its hostnames that some certificate suits. */
  ghost predicate ServedBy(cf: CfStack, listing: Listing, ingress: Ingress) {
    if ingress.certificateARN != "" then RecordedAsRequired(cf, ingress.certificateARN)
    else
      forall h, c, name :: h in ingress.hostnames && Suits(listing.certs, h, listing.now, c, name) ==>
        exists arn :: BestFor(listing.certs, h, listing.now, arn) && RecordedAsRequired(cf, arn)
  }

  /** There is a certificate for the ingress: the pinned one, or one for some hostname. */
  ghost predicate HasCertificate(listing: Listing, ingress: Ingress) {
    if ingress.certificateARN != "" then exists c :: c in listing.certs && c.id == ingress.certificateARN
    else exists h, c, name :: h in ingress.hostnames && Suits(listing.certs, h, listing.now, c, name)
  }

  lemma HeldIsInUse(listing: Listing, ingress: Ingress, i: nat, arn: string)
    requires HeldAt(listing, ingress, i, arn) && !ingress.clusterLocal
    ensures i < |listing.Model()| && i != |listing.stacks| && InUse(listing.Model()[i], arn)
  {
    ModelStackAt(listing, i);
    Ownership.ModelIsConsistent(listing);
    hide Listing.Model, AgreesWith;
    assert listing.Model()[i].Holds(ingress);
    assert Consistent(listing.Model()[i]);
  }

  /** After a cycle in which its request is granted, the stack of a load balancer has all the
      certificates under which that holds the ingress. */
  lemma HeldIsRecorded(
    config: Config, rejects: set<Worker.Request>, names: nat -> string, run: Run, from: World, to: World, listing: Listing,
    ingress: Ingress, i: nat)
    returns (name: string)
    requires Cycle(config, rejects, names, run, from, to, listing) && listing.certs != []
    requires Orderly(from) && AvoidsReservedTags(config.stackTags) && from.clock + config.certTTL >= SECOND
    requires |run.worlds| == |listing.Model()| + 3 && i < |listing.Model()| && i != |listing.stacks|
    requires Granted(config, rejects, names, run, listing, i) && !ingress.clusterLocal
    ensures name in to.stacks
    ensures forall arn :: HeldAt(listing, ingress, i, arn) ==> RecordedAsRequired(to.stacks[name].cf, arn)
  {
    ModelStackAt(listing, i);
    hide Listing.Model, Cycle, AvoidsReservedTags, Granted, RecordedAsRequired, Orderly, InUse, HeldAt;
    if i < |listing.stacks| {
      name := listing.Model()[i].stack.value.name;
      CycleBringsUpToDate(config, rejects, names, run, from, to, listing, i);
    } else {
      name := names(i);
      CycleCreates(config, rejects, names, run, from, to, listing, i);
    }
    forall arn | HeldAt(listing, ingress, i, arn) ensures InUse(listing.Model()[i], arn) {
      HeldIsInUse(listing, ingress, i, arn);
    }
  }

  /** After a cycle in which the request for it is granted, each ingress for which there is a
      certificate has a stack with what it needs. */
  lemma EveryIngressIsServed(
    config: Config, rejects: set<Worker.Request>, names: nat -> string, run: Run, from: World, to: World, listing: Listing,
    p: nat)
    requires Cycle(config, rejects, names, run, from, to, listing) && listing.certs != []
    requires Orderly(from) && AvoidsReservedTags(config.stackTags) && from.clock + config.certTTL >= SECOND
    requires |run.worlds| == |listing.Model()| + 3
    requires p < |listing.Requests()| && !listing.Requests()[p].ingress.clusterLocal
    requires GrantedFor(config, rejects, names, run, listing, listing.Requests()[p].ingress)
    requires HasCertificate(listing, listing.Requests()[p].ingress)
    ensures exists name :: name in to.stacks && ServedBy(to.stacks[name].cf, listing, listing.Requests()[p].ingress)
  {
    hide Listing.Model, Listing.Requests, Cycle, AvoidsReservedTags, Granted, Orderly, HeldAt, HeldUnder, Suits, BestFor,
         RecordedAsRequired;
    var ingress := listing.Requests()[p].ingress;
    var arn := HasSomeKey(listing, p);
    var i := HeldTogether(listing, p, arn);
    HeldIsInUse(listing, ingress, i, arn);
    var name := HeldIsRecorded(config, rejects, names, run, from, to, listing, ingress, i);
    if ingress.certificateARN != "" {
      PinnedCertificateIsUsed(listing, p, ingress.certificateARN);
    } else {
      BestCertificatesAreUsed(listing, p);
    }
    assert ServedBy(to.stacks[name].cf, listing, ingress);
  }

  lemma HasSomeKey(listing: Listing, p: nat) returns (arn: string)
    requires p < |listing.Requests()| && !listing.Requests()[p].ingress.clusterLocal
    requires HasCertificate(listing, listing.Requests()[p].ingress)
    ensures HeldUnder(listing, listing.Requests()[p].ingress, arn)
  {
    hide HeldUnder, Suits, BestFor, Listing.Requests;
    var ingress := listing.Requests()[p].ingress;
    if ingress.certificateARN != "" {
      arn := ingress.certificateARN;
      PinnedCertificateIsUsed(listing, p, arn);
    } else {
      BestCertificatesAreUsed(listing, p);
      var h, c, name :| h in ingress.hostnames && Suits(listing.certs, h, listing.now, c, name);
      arn :| HeldUnder(listing, ingress, arn) && BestFor(listing.certs, h, listing.now, arn);
    }
  }
}
