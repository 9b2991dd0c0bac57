/** The protocol that keeps the targets of CNI target groups up to date (worker.go,
    kubernetes/pods.go): a pod informer and the polling loop send snapshots through two
    bounded channels to a handler that coalesces them and is slowed down by a ticker. */
module Cni {
  import opened Text
  import opened Sorting
  import opened LoadBalancers
  import opened Values
  import opened TargetGroups

  const CHANNEL_CAPACITY := 10

  /** Pod addresses by pod name. */
  type Pods = map<string, string>

  // The producer: pods and the snapshots of their addresses.

  /** The sorted addresses of the pods. */
  ghost predicate IsSnapshot(pods: Pods, snapshot: seq<string>) {
    ListsValues(pods, snapshot)
  }

  /** The map is read in arbitrary order. */
  method QueueEndpoints(pods: Pods) returns (snapshot: seq<string>)
    ensures IsSnapshot(pods, snapshot)
  {
    hide KeysOf, Preorder, SortedBy, Separates, SortStrings;
    var podList: seq<string> := [];
    var remaining := pods.Keys;
    NoValues(pods - remaining);
    while remaining != {}
      invariant remaining <= pods.Keys
      invariant forall ip :: multiset(podList)[ip] == |KeysOf(pods - remaining, ip)|
    {
      var name :| name in remaining;
      OneValueMore(pods, remaining, name);
      podList := podList + [pods[name]];
      remaining := remaining - {name};
    }
    assert pods - {} == pods;
    snapshot := SortStrings(podList);
    SortedStrings(podList);
  }

  /** The snapshot of a set of pods is determined, whatever order they are read in, and
      holds exactly their addresses. */
  lemma SnapshotIsUnique(pods: Pods, a: seq<string>, b: seq<string>)
    requires IsSnapshot(pods, a) && IsSnapshot(pods, b)
    ensures a == b && Elements(a) == pods.Values
  {
    ListingIsUnique(pods, a, b);
    ListingHoldsValues(pods, a);
  }

  // The events of a pod.

  /** What the informer sees of a pod. */
  datatype Pod = Pod(name: string, terminating: bool, containerRunning: bool, ip: string) {
    predicate Running() { containerRunning && ip != "" }
  }

  function Track(pods: Pods, pod: Pod): Pods {
    if pod.terminating then pods - {pod.name}
    else if pod.Running() && pod.name !in pods then pods[pod.name := pod.ip]
    else pods
  }

  function TrackAll(seen: seq<Pod>): Pods {
    if seen == [] then map[] else Track(TrackAll(seen[..|seen| - 1]), seen[|seen| - 1])
  }

  ghost predicate TerminatedAfter(seen: seq<Pod>, i: nat, name: string) {
    exists j :: i < j < |seen| && seen[j].name == name && seen[j].terminating
  }

  /** The pod has been seen running at i, has not been terminated since, and was not
      running before without being terminated. */
  ghost predicate TrackedSince(seen: seq<Pod>, i: int, name: string) {
    && 0 <= i < |seen| && seen[i].name == name && seen[i].Running() && !seen[i].terminating
    && !TerminatedAfter(seen, i, name)
    && forall j :: 0 <= j < i && seen[j].name == name && seen[j].Running() && !seen[j].terminating ==>
         TerminatedAfter(seen, j, name)
  }

  lemma TerminatedAfterOneMore(seen: seq<Pod>, i: nat, name: string)
    requires seen != [] && i < |seen| - 1
    ensures var last := seen[|seen| - 1];
            TerminatedAfter(seen, i, name) <==>
              TerminatedAfter(seen[..|seen| - 1], i, name) || (last.name == name && last.terminating)
  {
    var front := seen[..|seen| - 1];
    if TerminatedAfter(front, i, name) {
      var j :| i < j < |front| && front[j].name == name && front[j].terminating;
      assert seen[j] == front[j];
    }
    if TerminatedAfter(seen, i, name) {
      var j :| i < j < |seen| && seen[j].name == name && seen[j].terminating;
      assert j < |front| ==> front[j] == seen[j];
    }
  }

  /** The tracked pods are those seen running and not terminated since, with the address
      they were first seen with. */
  lemma {:induction false} TrackedPods(seen: seq<Pod>, name: string)
    ensures name in TrackAll(seen) <==> exists i :: TrackedSince(seen, i, name)
    ensures forall i :: TrackedSince(seen, i, name) ==> name in TrackAll(seen) && TrackAll(seen)[name] == seen[i].ip
  {
    if seen != [] {
      var front, n := seen[..|seen| - 1], |seen| - 1;
      TrackedPods(front, name);
      forall i | 0 <= i < n ensures TrackedSince(seen, i, name) <==>
          TrackedSince(front, i, name) && !(seen[n].name == name && seen[n].terminating)
      {
        TrackedStays(seen, i, name);
      }
      NewlyTracked(seen, name);
    }
  }

  lemma TrackedStays(seen: seq<Pod>, i: nat, name: string)
    requires i < |seen| - 1
    ensures var n := |seen| - 1;
            TrackedSince(seen, i, name) <==>
              TrackedSince(seen[..n], i, name) && !(seen[n].name == name && seen[n].terminating)
  {
    var n := |seen| - 1;
    forall j | 0 <= j <= i
      ensures TerminatedAfter(seen, j, name) <==>
        TerminatedAfter(seen[..n], j, name) || (seen[n].name == name && seen[n].terminating)
    {
      TerminatedAfterOneMore(seen, j, name);
    }
  }

  lemma NewlyTracked(seen: seq<Pod>, name: string)
    requires seen != []
    ensures var n := |seen| - 1;
            TrackedSince(seen, n, name) <==>
              && seen[n].name == name && seen[n].Running() && !seen[n].terminating
              && forall i :: !TrackedSince(seen[..n], i, name)
  {
    var n, front := |seen| - 1, seen[..|seen| - 1];
    if seen[n].name == name && seen[n].Running() && !seen[n].terminating {
      forall j | 0 <= j < n ensures TerminatedAfter(seen, j, name) <==> TerminatedAfter(front, j, name) {
        TerminatedAfterOneMore(seen, j, name);
      }
      if forall i :: !TrackedSince(front, i, name) {
        forall j | 0 <= j < n && seen[j].name == name && seen[j].Running() && !seen[j].terminating
          ensures TerminatedAfter(front, j, name)
        {
          FirstRunning(front, j, name);
        }
      }
    }
  }

  /** A pod that runs at j and is not terminated afterwards is tracked since some time. */
  lemma {:induction false} FirstRunning(seen: seq<Pod>, j: nat, name: string)
    requires j < |seen| && seen[j].name == name && seen[j].Running() && !seen[j].terminating
    ensures TerminatedAfter(seen, j, name) || exists i :: TrackedSince(seen, i, name)
  {
    if !TerminatedAfter(seen, j, name) && !TrackedSince(seen, j, name) {
      var k :| 0 <= k < j && seen[k].name == name && seen[k].Running() && !seen[k].terminating
               && !TerminatedAfter(seen, k, name);
      FirstRunning(seen, k, name);
    }
  }

  // The protocol.

  datatype Producer = Starting | Idle | Sending(snapshot: seq<string>)

  /** Where the handler's loop is: waiting for a message, having received one, having
      found no endpoints queued, or waiting for the ticker. */
  datatype Consumer = AtSelect | Received | NoEndpointsQueued | AwaitingTick

  /** A call of the setter: the targets before and after it, the calls to the service that
      failed meanwhile, and the number of groups that were dealt with. */
  datatype Call = Call(
    endpoints: seq<string>, targetGroupARNs: seq<string>, before: Targets, after: Targets, faults: Faults, done: nat)
  {
    /** What SetTargetsOnCNITargetGroups promises of it. */
    ghost predicate Kept() {
      SetsAll(before, after, faults, targetGroupARNs, Elements(endpoints), done)
    }
  }

  /** The lists of target groups may be nil; endpoints and arns are what the handler has
      received last. seen, groups and calls record the pod events, the lists of target
      groups sent and the calls of the setter so far. */
  datatype Protocol = Protocol(
    pods: Pods,
    producer: Producer,
    endpointCh: seq<seq<string>>,
    targetGroupCh: seq<Option<seq<string>>>,
    consumer: Consumer,
    endpoints: Option<seq<string>>,
    arns: Option<seq<string>>,
    seen: seq<Pod>,
    groups: seq<Option<seq<string>>>,
    calls: seq<Call>)
  {
    predicate QueuesEmpty() { endpointCh == [] && targetGroupCh == [] }
  }

  const START: Protocol :=
    Protocol(map[], Starting, [], [], AtSelect, None, None, [], [], [])

  // The steps of the producers.

  ghost predicate ListsPods(w: Protocol, w': Protocol, list: seq<Pod>, snapshot: seq<string>) {
    && w.producer == Starting && list != [] && (forall i, j :: 0 <= i < j < |list| ==> list[i].name != list[j].name)
    && IsSnapshot(TrackAll(list), snapshot)
    && w' == w.(pods := TrackAll(list), seen := list, producer := Sending(snapshot))
  }

  ghost predicate SeesPod(w: Protocol, w': Protocol, pod: Pod, snapshot: seq<string>) {
    var pods := Track(w.pods, pod);
    && w.producer == Idle && IsSnapshot(pods, snapshot)
    && w' == w.(pods := pods, seen := w.seen + [pod], producer := if pods == w.pods then Idle else Sending(snapshot))
  }

  ghost predicate SendsEndpoints(w: Protocol, w': Protocol) {
    && w.producer.Sending? && |w.endpointCh| < CHANNEL_CAPACITY
    && w' == w.(endpointCh := w.endpointCh + [w.producer.snapshot], producer := Idle)
  }

  ghost predicate SendsGroups(w: Protocol, w': Protocol, arns: Option<seq<string>>) {
    && |w.targetGroupCh| < CHANNEL_CAPACITY
    && w' == w.(targetGroupCh := w.targetGroupCh + [arns], groups := w.groups + [arns])
  }

  // The steps of the handler.

  ghost predicate ReceivesEndpoints(w: Protocol, w': Protocol) {
    && w.consumer == AtSelect && w.endpointCh != []
    && w' == w.(endpoints := Some(w.endpointCh[0]), endpointCh := w.endpointCh[1..], consumer := Received)
  }

  ghost predicate ReceivesGroups(w: Protocol, w': Protocol) {
    && w.consumer == AtSelect && w.targetGroupCh != []
    && w' == w.(arns := w.targetGroupCh[0], targetGroupCh := w.targetGroupCh[1..], consumer := Received)
  }

  /** Gives up if one of the values is missing or endpoints are queued. */
  ghost predicate ChecksEndpoints(w: Protocol, w': Protocol) {
    && w.consumer == Received
    && w' == w.(consumer := if w.arns.None? || w.endpoints.None? || w.endpointCh != [] then AtSelect
                            else NoEndpointsQueued)
  }

  ghost predicate ChecksGroups(w: Protocol, w': Protocol) {
    && w.consumer == NoEndpointsQueued
    && w' == w.(consumer := if w.targetGroupCh != [] then AtSelect else AwaitingTick)
  }

  ghost predicate SetsTargets(w: Protocol, w': Protocol, call: Call) {
    && w.consumer == AwaitingTick && Some(call.endpoints) == w.endpoints && Some(call.targetGroupARNs) == w.arns
    && call.Kept()
    && w' == w.(calls := w.calls + [call], consumer := AtSelect)
  }

  ghost predicate HandlerStep(w: Protocol, w': Protocol) {
    || ReceivesEndpoints(w, w') || ReceivesGroups(w, w')
    || ChecksEndpoints(w, w') || ChecksGroups(w, w') || exists call :: SetsTargets(w, w', call)
  }

  ghost predicate Next(w: Protocol, w': Protocol) {
    || (exists list, snapshot :: ListsPods(w, w', list, snapshot))
    || (exists pod, snapshot :: SeesPod(w, w', pod, snapshot))
    || SendsEndpoints(w, w')
    || (exists arns :: SendsGroups(w, w', arns))
    || HandlerStep(w, w')
  }

  ghost predicate Interleaving(run: seq<Protocol>) {
    run != [] && run[0] == START && forall i :: 0 <= i < |run| - 1 ==> Next(run[i], run[i + 1])
  }

  // What every interleaving keeps.

  function LastOf<T>(s: seq<T>): T
    requires s != []
  {
    s[|s| - 1]
  }

  /** The newest snapshot: about to be sent, queued, or received. */
  function NewestEndpoints(w: Protocol): Option<seq<string>> {
    if w.producer.Sending? then Some(w.producer.snapshot)
    else if w.endpointCh != [] then Some(LastOf(w.endpointCh))
    else w.endpoints
  }

  function NewestGroups(w: Protocol): Option<seq<string>> {
    if w.targetGroupCh != [] then LastOf(w.targetGroupCh) else w.arns
  }

  ghost predicate EndpointsAreFresh(w: Protocol) {
    if w.producer == Starting then w.endpointCh == [] && w.endpoints == None && w.seen == []
    else NewestEndpoints(w).Some? && IsSnapshot(w.pods, NewestEndpoints(w).value)
  }

  ghost predicate GroupsAreFresh(w: Protocol) {
    NewestGroups(w) == if w.groups == [] then None else LastOf(w.groups)
  }

  /** When the handler waits with both values, either messages are queued or it has
      already set exactly these values. */
  ghost predicate NothingOverlooked(w: Protocol) {
    && (w.consumer == NoEndpointsQueued || w.consumer == AwaitingTick ==> w.arns.Some? && w.endpoints.Some?)
    && (w.consumer == AtSelect && w.arns.Some? && w.endpoints.Some? && w.QueuesEmpty() ==>
          w.calls != [] && LastOf(w.calls).endpoints == w.endpoints.value && LastOf(w.calls).targetGroupARNs == w.arns.value)
    && (w.calls != [] ==> LastOf(w.calls).Kept())
  }

  ghost predicate Inv(w: Protocol) {
    && w.pods == TrackAll(w.seen)
    && |w.endpointCh| <= CHANNEL_CAPACITY && |w.targetGroupCh| <= CHANNEL_CAPACITY
    && EndpointsAreFresh(w) && GroupsAreFresh(w) && NothingOverlooked(w)
  }

  lemma ProducersKeepInv(w: Protocol, w': Protocol)
    requires Inv(w) && Next(w, w') && !HandlerStep(w, w')
    ensures Inv(w')
  {
    hide Inv, HandlerStep;
    if list, snapshot :| ListsPods(w, w', list, snapshot) {
      ListingKeepsInv(w, w', list, snapshot);
    } else if pod, snapshot :| SeesPod(w, w', pod, snapshot) {
      PodKeepsInv(w, w', pod, snapshot);
    } else {
      SendingKeepsInv(w, w');
    }
  }

  lemma ListingKeepsInv(w: Protocol, w': Protocol, list: seq<Pod>, snapshot: seq<string>)
    requires Inv(w) && ListsPods(w, w', list, snapshot)
    ensures Inv(w')
  {
    hide IsSnapshot, TrackAll, Call.Kept;
  }

  lemma PodKeepsInv(w: Protocol, w': Protocol, pod: Pod, snapshot: seq<string>)
    requires Inv(w) && SeesPod(w, w', pod, snapshot)
    ensures Inv(w')
  {
    hide IsSnapshot, Track, Call.Kept;
    assert w'.seen[..|w.seen|] == w.seen;
  }

  lemma SendingKeepsInv(w: Protocol, w': Protocol)
    requires Inv(w) && (SendsEndpoints(w, w') || exists arns :: SendsGroups(w, w', arns))
    ensures Inv(w')
  {
    hide IsSnapshot, TrackAll, Call.Kept;
  }

  lemma HandlerKeepsInv(w: Protocol, w': Protocol)
    requires Inv(w) && HandlerStep(w, w')
    ensures Inv(w')
  {
    if ReceivesEndpoints(w, w') || ReceivesGroups(w, w') {
      ReceivingKeepsInv(w, w');
    } else {
      CheckingKeepsInv(w, w');
    }
  }

  lemma CheckingKeepsInv(w: Protocol, w': Protocol)
    requires Inv(w) && (ChecksEndpoints(w, w') || ChecksGroups(w, w') || exists call :: SetsTargets(w, w', call))
    ensures Inv(w')
  {
    hide IsSnapshot, TrackAll, Call.Kept;
  }

  lemma ReceivingKeepsInv(w: Protocol, w': Protocol)
    requires Inv(w) && (ReceivesEndpoints(w, w') || ReceivesGroups(w, w'))
    ensures Inv(w')
  {
    hide IsSnapshot, TrackAll, Call.Kept;
    assert |w.endpointCh| > 1 ==> LastOf(w.endpointCh) == LastOf(w.endpointCh[1..]);
    assert |w.targetGroupCh| > 1 ==> LastOf(w.targetGroupCh) == LastOf(w.targetGroupCh[1..]);
  }

  lemma {:induction false} InterleavingsKeepInv(run: seq<Protocol>, i: nat)
    requires Interleaving(run) && i < |run|
    ensures Inv(run[i])
  {
    if i > 0 {
      hide Inv, HandlerStep;
      InterleavingsKeepInv(run, i - 1);
      assert Next(run[i - 1], run[i]);
      if HandlerStep(run[i - 1], run[i]) {
        HandlerKeepsInv(run[i - 1], run[i]);
      } else {
        ProducersKeepInv(run[i - 1], run[i]);
      }
    } else {
      assert Inv(START);
    }
  }

  /** In every interleaving: whenever the handler waits with both queues empty and both
      values received, its last call has used these values; they are the target groups
      sent last and, unless a snapshot is about to be queued, the sorted addresses of the
      pods that are tracked now. If no request of that call failed, it has left each of
      these groups with exactly these addresses as its targets. */
  lemma Quiescence(run: seq<Protocol>, i: nat)
    requires Interleaving(run) && i < |run|
    requires run[i].consumer == AtSelect && run[i].QueuesEmpty() && run[i].endpoints.Some? && run[i].arns.Some?
    ensures var w := run[i];
            && w.calls != [] && LastOf(w.calls).endpoints == w.endpoints.value && LastOf(w.calls).targetGroupARNs == w.arns.value
            && w.groups != [] && LastOf(w.groups) == w.arns
            && (!w.producer.Sending? ==> IsSnapshot(TrackAll(w.seen), w.endpoints.value))
    ensures var call := LastOf(run[i].calls);
            Serves(call.before, call.faults, call.targetGroupARNs) && !run[i].producer.Sending? ==>
              forall arn :: arn in call.targetGroupARNs ==>
                arn in call.after && call.after[arn] == TrackAll(run[i].seen).Values
  {
    InterleavingsKeepInv(run, i);
    var call := LastOf(run[i].calls);
    SetsExactly(call.before, call.after, call.faults, call.targetGroupARNs, Elements(call.endpoints), call.done);
    if !run[i].producer.Sending? {
      SnapshotIsUnique(TrackAll(run[i].seen), call.endpoints, call.endpoints);
    }
  }

  // The handler comes to rest.

  function Effort(w: Protocol): nat {
    5 * (|w.endpointCh| + |w.targetGroupCh|)
    + match w.consumer case AtSelect => 0 case Received => 3 case NoEndpointsQueued => 2 case AwaitingTick => 1
  }

  /** Each step of the handler brings it closer to rest, and it can take a step unless it
      waits with both queues empty. */
  lemma HandlerComesToRest(w: Protocol)
    requires Inv(w)
    ensures forall w' :: HandlerStep(w, w') ==> Effort(w') < Effort(w)
    ensures (exists w' :: HandlerStep(w, w')) <==> !(w.consumer == AtSelect && w.QueuesEmpty())
  {
    match w.consumer
    case AtSelect =>
      if w.endpointCh != [] {
        var w' := w.(endpoints := Some(w.endpointCh[0]), endpointCh := w.endpointCh[1..], consumer := Received);
        assert HandlerStep(w, w');
      } else if w.targetGroupCh != [] {
        var w' := w.(arns := w.targetGroupCh[0], targetGroupCh := w.targetGroupCh[1..], consumer := Received);
        assert HandlerStep(w, w');
      }
    case Received =>
      var w' := w.(consumer := if w.arns.None? || w.endpoints.None? || w.endpointCh != [] then AtSelect else NoEndpointsQueued);
      assert HandlerStep(w, w');
    case NoEndpointsQueued =>
      var w' := w.(consumer := if w.targetGroupCh != [] then AtSelect else AwaitingTick);
      assert HandlerStep(w, w');
    case AwaitingTick =>
      var call := Call(w.endpoints.value, w.arns.value, map[], map[], Faults({}, {}, {}), |w.arns.value|);
      var w' := w.(calls := w.calls + [call], consumer := AtSelect);
      assert SetsTargets(w, w', call);
      assert HandlerStep(w, w');
  }
}
