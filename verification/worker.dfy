/** The imperative part of a cycle: asking CloudFormation to create, update and delete
    stacks, load balancer by load balancer (worker.go, aws/adapter.go). Every run of it is
    a run of the state machine. */
module Worker {
  import opened Text
  import opened Clock
  import opened Stacks
  import opened Certificates
  import opened LoadBalancers
  import opened Matching
  import opened Alarms
  import opened Model
  import opened Placements
  import opened Reconciler
  import opened Safety

  datatype Request = Creating(name: string) | Updating(name: string) | Deleting(name: string)

  /** The stacks of an account. Any request may be rejected, and then changes nothing;
      rejects, which no request changes, decides which ones are, and nothing is known
      about it. */
  class CloudFormation {
    var stacks: map<string, Record>
    var rejects: set<Request>
    /** The names of all stacks there have been; new stacks get unique names. */
    ghost var used: set<string>

    constructor (stacks: map<string, Record>, rejects: set<Request>)
      ensures this.stacks == stacks && this.rejects == rejects && used == stacks.Keys
    {
      this.stacks, this.rejects, used := stacks, rejects, stacks.Keys;
    }

    method CreateStack(name: string, tags: seq<KeyValue>, parameters: seq<KeyValue>) returns (ok: bool)
      requires name !in used
      modifies this`stacks, this`used
      ensures ok <==> Creating(name) !in rejects
      ensures var cf := CfStack(name, CreateInProgress, tags, parameters, []);
              stacks == if ok then old(stacks)[name := Record(cf, cf)] else old(stacks)
      ensures used == if ok then old(used) + {name} else old(used)
    {
      ok := Creating(name) !in rejects;
      if ok {
        var cf := CfStack(name, CreateInProgress, tags, parameters, []);
        stacks, used := stacks[name := Record(cf, cf)], used + {name};
      }
    }

    method UpdateStack(name: string, tags: seq<KeyValue>, parameters: seq<KeyValue>) returns (ok: bool)
      modifies this`stacks
      ensures ok <==> Updatable(old(stacks), name) && Updating(name) !in rejects
      ensures ok ==>
        var record := old(stacks)[name];
        var cf := record.cf.(status := UpdateInProgress, tags := tags, parameters := parameters);
        stacks == old(stacks)[name := record.(cf := cf)]
      ensures !ok ==> stacks == old(stacks)
    {
      ok := Updatable(stacks, name) && Updating(name) !in rejects;
      if ok {
        var record := stacks[name];
        stacks := stacks[name := record.(cf := record.cf.(status := UpdateInProgress, tags := tags, parameters := parameters))];
      }
    }

    method DeleteStack(name: string) returns (ok: bool)
      modifies this`stacks
      ensures ok <==> name in old(stacks) && Deleting(name) !in rejects
      ensures ok ==> var record := old(stacks)[name];
                     stacks == old(stacks)[name := record.(cf := record.cf.(status := DeleteInProgress))]
      ensures !ok ==> stacks == old(stacks)
    {
      ok := name in stacks && Deleting(name) !in rejects;
      if ok {
        var record := stacks[name];
        stacks := stacks[name := record.(cf := record.cf.(status := DeleteInProgress))];
      }
    }
  }

  predicate Updatable(stacks: map<string, Record>, name: string) {
    name in stacks && !GoingAway(stacks[name].cf.status)
  }

  // What is asked for is done, unless it is rejected.

  predicate CreateGranted(config: Config, rejects: set<Request>, lb: Balancer, name: string) {
    (if lb.sslPolicy == "" then config.sslPolicy else lb.sslPolicy) in config.sslPolicies && Creating(name) !in rejects
  }

  predicate UpdateGranted(config: Config, rejects: set<Request>, stacks: map<string, Record>, lb: Balancer)
    requires lb.stack.Some?
  {
    lb.sslPolicy in config.sslPolicies && Updatable(stacks, lb.stack.value.name) && Updating(lb.stack.value.name) !in rejects
  }

  predicate DeleteGranted(rejects: set<Request>, stacks: map<string, Record>, lb: Balancer)
    requires lb.stack.Some?
  {
    lb.stack.value.name in stacks && Deleting(lb.stack.value.name) !in rejects
  }

  /** The step does what the status of the next load balancer asks for, exactly unless the
      SSL policy is unknown, the stack is gone or the request is rejected. */
  ghost predicate Dutiful(config: Config, rejects: set<Request>, w: World, step: Step, name: string) {
    && step.Act? && w.pending != [] && w.pending[0].Grounded()
    && var lb := w.pending[0];
       (step.accepted <==>
          match lb.Status(w.clock, w.firstRun)
          case Ready => false
          case Delete => lb.stack.Some? && DeleteGranted(rejects, w.stacks, lb)
          case Missing => CreateGranted(config, rejects, lb, name)
          case Update => lb.stack.Some? && UpdateGranted(config, rejects, w.stacks, lb))
       && (step.accepted && lb.Status(w.clock, w.firstRun) == Missing ==> step.cf.name == name)
  }

  method ZeroTimes(ingresses: Assignments) returns (certARNs: map<string, Time>)
    ensures certARNs == map arn | arn in ingresses :: ZERO
  {
    certARNs := map[];
    var remaining := ingresses.Keys;
    while remaining != {}
      invariant remaining <= ingresses.Keys
      invariant certARNs == map arn | arn in ingresses.Keys - remaining :: ZERO
    {
      var arn :| arn in remaining;
      certARNs, remaining := certARNs[arn := ZERO], remaining - {arn};
    }
  }

  /** Sends the request for a new stack. */
  method SendCreate(svc: CloudFormation, spec: StackSpec) returns (ok: bool, cf: CfStack)
    requires spec.name !in svc.used
    modifies svc`stacks, svc`used
    ensures ok <==> Creating(spec.name) !in svc.rejects
    ensures cf.name == spec.name && cf.status.CreateInProgress? && WrittenFrom(cf, spec)
    ensures svc.stacks == if ok then old(svc.stacks)[spec.name := Record(cf, cf)] else old(svc.stacks)
    ensures svc.used == if ok then old(svc.used) + {spec.name} else old(svc.used)
  {
    hide WrittenTag, WrittenParameters;
    var tags := StackTagList(spec);
    var parameters := StackParameterList(spec);
    ok := svc.CreateStack(spec.name, tags, parameters);
    cf := CfStack(spec.name, CreateInProgress, tags, parameters, []);
  }

  method CreateStack(config: Config, svc: CloudFormation, lb: LoadBalancer, name: string, subnets: seq<string>)
    returns (ok: bool, cf: CfStack, owner: string)
    requires name !in svc.used
    modifies svc`stacks, svc`used
    ensures ok <==> CreateGranted(config, svc.rejects, lb.View(), name)
    ensures ok ==> Creates(config, old(svc.stacks), old(svc.used), svc.stacks, lb.View(), cf, owner, subnets)
    ensures ok ==> cf.name == name && svc.used == old(svc.used) + {name}
    ensures !ok ==> svc.stacks == old(svc.stacks) && svc.used == old(svc.used)
  {
    hide WrittenFrom, Balancer.MayBeOwner, Config.Spec, Config.CreateSpec;
    owner := lb.Owner();
    cf := CfStack(name, CreateInProgress, [], [], []);
    var spec := NewSpec(config, lb, name, owner, subnets);
    if spec.sslPolicy !in config.sslPolicies {
      return false, cf, owner;
    }
    ok, cf := SendCreate(svc, spec);
  }

  method NewSpec(config: Config, lb: LoadBalancer, name: string, owner: string, subnets: seq<string>) returns (spec: StackSpec)
    ensures spec == config.CreateSpec(name, lb.View(), owner, subnets)
    ensures spec.name == name && spec.sslPolicy == if lb.sslPolicy == "" then config.sslPolicy else lb.sslPolicy
  {
    var certARNs := ZeroTimes(lb.ingresses);
    var sslPolicy := lb.sslPolicy;
    if sslPolicy == "" {
      sslPolicy := config.sslPolicy;
    }
    spec := config.Spec(name, certARNs, lb.View(), owner, sslPolicy, subnets);
    assert lb.View().ingresses == lb.ingresses;
  }

  method UpdateStack(config: Config, svc: CloudFormation, lb: LoadBalancer, now: Time, subnets: seq<string>)
    returns (ok: bool, ghost cf: CfStack, owner: string)
    requires lb.stack.Some?
    modifies svc`stacks
    ensures ok <==> UpdateGranted(config, svc.rejects, old(svc.stacks), lb.View())
    ensures ok ==> Updates(config, old(svc.stacks), svc.stacks, lb.View(), now, cf, owner, subnets)
    ensures !ok ==> svc.stacks == old(svc.stacks)
  {
    hide WrittenTag, WrittenParameters, Balancer.CertificateARNs;
    var name := lb.stack.value.name;
    cf := CfStack(name, UpdateInProgress, [], [], []);
    var certificates := lb.CertificateARNs(now);
    owner := lb.Owner();
    if lb.sslPolicy !in config.sslPolicies {
      return false, cf, owner;
    }
    var spec := config.Spec(name, certificates, lb.View(), owner, lb.sslPolicy, subnets);
    assert spec == config.UpdateSpec(name, lb.View(), now, owner, subnets);
    var tags := StackTagList(spec);
    var parameters := StackParameterList(spec);
    ok := svc.UpdateStack(name, tags, parameters);
    cf := if ok then svc.stacks[name].cf else cf;
  }

  /** Deals with one load balancer: a step of the state machine. */
  method ActOn(
    config: Config, svc: CloudFormation, lb: LoadBalancer, firstRun: bool, now: Time, later: Time, name: string,
    subnets: seq<string>, ghost w: World)
    returns (ghost w': World, ghost step: Step)
    requires w.pending != [] && w.pending[0] == lb.View() && lb.View().Grounded() && name !in svc.used
    requires w.clock == now <= later && w.stacks == svc.stacks && w.used == svc.used && w.firstRun == firstRun
    modifies svc`stacks, svc`used
    ensures Next(config, w, w', step) && Dutiful(config, svc.rejects, w, step, name)
    ensures svc.used <= old(svc.used) + {name}
    ensures w' == World(later, svc.stacks, svc.used, firstRun, w.pending[1..], w.listed)
  {
    hide Creates, Updates, WrittenFrom, CreateGranted, UpdateGranted, Balancer.InSync, Balancer.CertificateARNs, Started, Settled,
         RolledBack, Vanished, Balancer.Required, Balancer.Retained, Stack.ShouldDelete;
    var ok := false;
    ghost var cf, owner := CfStack(name, CreateInProgress, [], [], []), "";
    match lb.View().Status(now, firstRun) {
      case Delete =>
        ok := svc.DeleteStack(lb.stack.value.name);
      case Missing =>
        ok, cf, owner := CreateStack(config, svc, lb, name, subnets);
      case Update =>
        ok, cf, owner := UpdateStack(config, svc, lb, later, subnets);
      case Ready =>
    }
    w' := w.(clock := later, stacks := svc.stacks, used := svc.used, pending := w.pending[1..]);
    step := Act(cf, owner, subnets, ok);
  }

  /** Names that nobody has used yet, as the unique identifiers in them make sure. */
  ghost predicate Fresh(names: nat -> string, i: nat, used: set<string>) {
    (forall j: nat, k: nat :: i <= j < k ==> names(j) != names(k)) && forall j: nat :: i <= j ==> names(j) !in used
  }

  ghost predicate Monotone(clock: nat -> Time) {
    forall i: nat :: clock(i) <= clock(i + 1)
  }

  /** A run that leads from one world to the other by acting dutifully on n load balancers. */
  ghost predicate Leads(
    config: Config, rejects: set<Request>, names: nat -> string, run: Run, from: World, to: World, n: nat)
  {
    && run.Of(config) && |run.steps| == n && run.worlds[0] == from && run.worlds[n] == to
    && forall i :: 0 <= i < n ==> Dutiful(config, rejects, run.worlds[i], run.steps[i], names(i))
  }

  lemma NoStep(config: Config, rejects: set<Request>, names: nat -> string, w: World)
    ensures Leads(config, rejects, names, Run([w], []), w, w, 0)
  {
  }

  lemma OneActMore(
    config: Config, rejects: set<Request>, names: nat -> string, run: Run, from: World, w: World, n: nat, w': World, step: Step)
    returns (longer: Run)
    requires Leads(config, rejects, names, run, from, w, n)
    requires Next(config, w, w', step) && Dutiful(config, rejects, w, step, names(n))
    ensures Leads(config, rejects, names, longer, from, w', n + 1)
  {
    hide Next, Dutiful;
    longer := Run(run.worlds + [w'], run.steps + [step]);
    forall i | 0 <= i < |longer.steps| ensures Next(config, longer.worlds[i], longer.worlds[i + 1], longer.steps[i]) {
      assert i < n ==> Next(config, run.worlds[i], run.worlds[i + 1], run.steps[i]);
    }
  }

  lemma OneFurther(lbs: seq<Balancer>, clock: nat -> Time, names: nat -> string, i: nat, used: set<string>)
    requires i < |lbs| && Monotone(clock) && Fresh(names, i, used) && AllGrounded(lbs)
    ensures lbs[i..][0] == lbs[i] && lbs[i..][1..] == lbs[i + 1..]
    ensures clock(i) <= clock(i + 1) && names(i) !in used && lbs[i].Grounded()
  {
  }

  lemma StaysFresh(names: nat -> string, i: nat, used: set<string>, after: set<string>)
    requires Fresh(names, i, used) && after <= used + {names(i)}
    ensures Fresh(names, i + 1, after)
  {
  }

  /** The loop of a cycle over its model. clock gives the times at which the load balancers
      are dealt with. */
  method ActOnAll(
    config: Config, svc: CloudFormation, model: seq<LoadBalancer>, firstRun: bool, clock: nat -> Time, names: nat -> string,
    findLBSubnets: string -> seq<string>, ghost listed: set<string>)
    returns (ghost run: Run)
    requires Fresh(names, 0, svc.used) && Monotone(clock)
    requires AllGrounded(Views(model))
    modifies svc`stacks, svc`used
    ensures Leads(config, svc.rejects, names, run,
                  World(clock(0), old(svc.stacks), old(svc.used), firstRun, Views(model), listed),
                  World(clock(|model|), svc.stacks, svc.used, firstRun, [], listed), |model|)
  {
    hide Next, Dutiful, AllGrounded, Balancer.Grounded, Leads, Fresh, Monotone, Views;
    ghost var start := World(clock(0), svc.stacks, svc.used, firstRun, Views(model), listed);
    ghost var w := start;
    run := Run([w], []);
    NoStep(config, svc.rejects, names, w);
    for i := 0 to |model|
      invariant Leads(config, svc.rejects, names, run, start, w, i)
      invariant w == World(clock(i), svc.stacks, svc.used, firstRun, Views(model)[i..], listed)
      invariant Fresh(names, i, svc.used)
    {
      OneFurther(Views(model), clock, names, i, svc.used);
      ghost var w', step :=
        ActOn(config, svc, model[i], firstRun, clock(i), clock(i + 1), names(i), findLBSubnets(model[i].scheme), w);
      StaysFresh(names, i, w.used, svc.used);
      run := OneActMore(config, svc.rejects, names, run, start, w, i, w', step);
      w := w';
    }
  }

  /** A cycle that starts with this listing and deals with the whole model, or ends at once
      because there are no certificates. */
  ghost predicate Cycle(
    config: Config, rejects: set<Request>, names: nat -> string, run: Run, from: World, to: World, listing: Listing)
  {
    && run.Of(config) && run.worlds[0] == from && run.worlds[|run.steps|] == to
    && if listing.certs == [] then run.steps == [EndCycle]
       else
         && |run.steps| == |listing.Model()| + 2
         && run.steps[0] == StartCycle(listing) && run.steps[|run.steps| - 1] == EndCycle
         && forall i :: 1 <= i <= |listing.Model()| ==>
              Dutiful(config, rejects, run.worlds[i], run.steps[i], names(i - 1))
  }

  lemma EmptyCycle(config: Config, rejects: set<Request>, names: nat -> string, w: World, listing: Listing) returns (run: Run)
    requires w.pending == [] && listing.certs == []
    ensures Cycle(config, rejects, names, run, w, w.(firstRun := false), listing)
  {
    run := Run([w, w.(firstRun := false)], [EndCycle]);
  }

  lemma StartOf(config: Config, w: World, listing: Listing) returns (started: World)
    requires w.pending == [] && listing.certs != [] && Lists(config, w.stacks, listing.stacks)
    requires listing.certsPerALB == config.certsPerALB && listing.certTTL == config.certTTL
    requires listing.globalWAFACL == config.globalWAFACL && listing.now == w.clock
    ensures Started(config, w, started, listing)
    ensures started == w.(pending := listing.Model(), listed := started.listed)
  {
    hide Lists, Listing.Model;
    started := w.(pending := listing.Model(), listed := set c | c in listing.certs :: c.id);
  }

  lemma CycleStarts(config: Config, w: World, w': World, listing: Listing)
    requires Started(config, w, w', listing)
    ensures Next(config, w, w', StartCycle(listing))
  {
    hide Started;
  }

  lemma CycleEnds(config: Config, w: World)
    requires w.pending == []
    ensures Next(config, w, w.(firstRun := false), EndCycle)
  {
  }

  lemma WholeCycle(
    config: Config, rejects: set<Request>, names: nat -> string, w: World, started: World, acts: Run, done: World,
    listing: Listing)
    returns (run: Run)
    requires Started(config, w, started, listing) && listing.certs != []
    requires Leads(config, rejects, names, acts, started, done, |listing.Model()|) && done.pending == []
    ensures Cycle(config, rejects, names, run, w, done.(firstRun := false), listing)
  {
    hide Next, Dutiful, Started, Listing.Model;
    var ended := done.(firstRun := false);
    CycleStarts(config, w, started, listing);
    CycleEnds(config, done);
    run := Surround(config, w, StartCycle(listing), acts, EndCycle, ended);
    forall i | 1 <= i <= |listing.Model()| ensures Dutiful(config, rejects, run.worlds[i], run.steps[i], names(i - 1)) {
      assert run.steps[i] == acts.steps[i - 1] && run.worlds[i] == acts.worlds[i - 1];
    }
  }

  lemma Surround(config: Config, w: World, first: Step, run: Run, last: Step, w': World) returns (longer: Run)
    requires run.Of(config) && Next(config, w, run.worlds[0], first) && Next(config, run.worlds[|run.steps|], w', last)
    ensures longer == Run([w] + run.worlds + [w'], [first] + run.steps + [last]) && longer.Of(config)
  {
    hide Next;
    longer := Run([w] + run.worlds + [w'], [first] + run.steps + [last]);
    var n := |run.steps|;
    forall i | 0 <= i < |longer.steps| ensures Next(config, longer.worlds[i], longer.worlds[i + 1], longer.steps[i]) {
      assert 1 <= i <= n ==> Next(config, run.worlds[i - 1], run.worlds[i], run.steps[i - 1]);
    }
  }

  /** The part of a cycle in which the model has been built. */
  method ActOnModel(
    config: Config, svc: CloudFormation, model: seq<LoadBalancer>, firstRun: bool, clock: nat -> Time, names: nat -> string,
    findLBSubnets: string -> seq<string>, ghost before: World, ghost listing: Listing)
    returns (ghost run: Run, ghost to: World)
    requires Fresh(names, 0, svc.used) && Monotone(clock)
    requires before == World(clock(0), svc.stacks, svc.used, firstRun, [], {})
    requires listing.certs != [] && Lists(config, before.stacks, listing.stacks) && listing.now == clock(0)
    requires listing.certsPerALB == config.certsPerALB && listing.certTTL == config.certTTL
    requires listing.globalWAFACL == config.globalWAFACL && Views(model) == listing.Model()
    modifies svc`stacks, svc`used
    ensures to == World(to.clock, svc.stacks, svc.used, false, [], to.listed)
    ensures Cycle(config, svc.rejects, names, run, before, to, listing)
  {
    hide Dutiful, Cycle, Leads, Lists, Listing.Model, Started, Views, Fresh, Monotone, AllWithin, AllGrounded;
    ghost var started := StartOf(config, before, listing);
    ModelIsSound(listing);
    ghost var acts := ActOnAll(config, svc, model, firstRun, clock, names, findLBSubnets, started.listed);
    ghost var done := World(clock(|model|), svc.stacks, svc.used, firstRun, [], started.listed);
    to := done.(firstRun := false);
    run := WholeCycle(config, svc.rejects, names, before, started, acts, done, listing);
  }

  /** A cycle, once everything has been listed: the model is built and acted on. It is a
      run of the state machine in which every request is made that is called for. */
  method DoWork(
    config: Config, svc: CloudFormation, certs: seq<CertificateSummary>, ingresses: array<Ingress>,
    stackLBStates: array<StackLBState>, cwAlarms: AlarmList, firstRun: bool, clock: nat -> Time, names: nat -> string,
    findLBSubnets: string -> seq<string>)
    returns (ghost run: Run, ghost to: World)
    requires Fresh(names, 0, svc.used) && Monotone(clock)
    requires Lists(config, svc.stacks, stackLBStates[..])
    modifies svc`stacks, svc`used, ingresses, stackLBStates
    ensures to == World(to.clock, svc.stacks, svc.used, false, [], to.listed)
    ensures Cycle(config, svc.rejects, names, run, World(clock(0), old(svc.stacks), old(svc.used), firstRun, [], {}), to,
                  Listing(certs, config.certsPerALB, config.certTTL, old(ingresses[..]), old(stackLBStates[..]), cwAlarms,
                          config.globalWAFACL, clock(0)))
  {
    ghost var before := World(clock(0), svc.stacks, svc.used, firstRun, [], {});
    ghost var listing := Listing(certs, config.certsPerALB, config.certTTL, ingresses[..], stackLBStates[..], cwAlarms,
                                 config.globalWAFACL, clock(0));
    hide Cycle, Lists, Listing.Model, Views, Fresh, Monotone;
    if |certs| == 0 {
      to := before.(firstRun := false);
      run := EmptyCycle(config, svc.rejects, names, before, listing);
      return;
    }
    var model := BuildManagedModel(
      certs, config.certsPerALB, config.certTTL, ingresses, stackLBStates, cwAlarms, config.globalWAFACL, clock(0));
    run, to := ActOnModel(config, svc, model, firstRun, clock, names, findLBSubnets, before, listing);
  }
}
