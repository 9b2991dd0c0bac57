# A verified model of kube-ingress-aws-controller

kube-ingress-aws-controller watches Kubernetes ingresses and keeps AWS load balancers for them, one
CloudFormation stack per load balancer. This project models its logic in Dafny and proves properties of the
model. `dafny verify dfyconfig.toml` checks everything.

The controller keeps no database. In every poll cycle it reads its stacks back from their tags and parameters,
rebuilds a model of the load balancers, distributes the ingresses over them, and creates, updates or deletes
stacks; what the next cycle knows is what this one has written. The central part of the project
(`reconciler.dfy` and the modules on top of it) is that loop as a state machine, next to CloudFormation, which
finishes, fails and rolls back what it is asked for, with requests rejected and the controller restarted at any
point.

| module | file | subject |
|---|---|---|
| Sorting, Text, Values, Clock | `sorting.dfy`, `text.dfy`, `values.dfy`, `clock.dfy` | sorting as a function of what is sorted, Go's string order, decimal numbers, time |
| Certificates | `certificates.dfy` | the certificate chooser |
| Expressions | `expressions.dfy` | the CloudFormation expression language over JSON trees |
| Alarms, Stacks | `alarms.dfy`, `stacks.dfy` | what is written to and read from a stack |
| LoadBalancers, Matching, Model | `load_balancers.dfy`, `matching.dfy`, `model.dfy` | the model of one cycle, as objects that change and as values |
| Placements, Packing | `placements.dfy`, `packing.dfy` | what every placement of ingresses keeps, and how well it packs |
| Reconciler | `reconciler.dfy` | controller and CloudFormation as a state machine |
| Worker | `worker.dfy` | the loop that creates, updates and deletes stacks, as code; each of its runs is a run of the state machine |
| GracePeriods, Safety, Ownership, ForeignStacks | `grace_periods.dfy`, `safety.dfy`, `ownership.dfy`, `foreign_stacks.dfy` | properties of all its runs |
| Resolution, Decisions, WholeCycles | `resolution.dfy`, `decisions.dfy`, `whole_cycles.dfy` | which certificates an ingress gets, what is to be done, and what a whole cycle achieves |
| Convergence, Settling | `convergence.dfy`, `settling.dfy` | the second cycle changes nothing |
| TargetGroups, Cni | `target_groups.dfy`, `cni.dfy` | target registration, and the protocol that feeds it with pod addresses |
| AutoScaling, Instances | `auto_scaling.dfy`, `instances.dfy` | auto scaling groups and single instances |
| Subnets, Filters | `subnets.dfy`, `filters.dfy` | subnet choice, and the text form of instance filters |
| StackTemplate | `template.dfy` | the generated template, its parameters and references |

Conventions. Time is a number of nanoseconds since Go's zero time, so a zero time is the number zero. A
timestamp as text keeps whole seconds (section 5.6 of RFC 3339). Verification of a certificate implies
`notBefore <= now <= notAfter` (section 6.1.3 of RFC 5280), with one reading of the clock per call. Code that
changes objects step by step is a method over a class or an array, proved equal to a function on values
(`LoadBalancer.View`, `Views`, `PlaceAll`, `Listing.Model`); the properties are proved about the functions. Maps
that Go reads in arbitrary order are read in arbitrary order here, too. Services that can fail are classes
with a field that decides which calls do; nothing is known about it and no call changes it, so that a method can say
exactly when it succeeds.

The code is followed also where it may surprise: the name of every wildcard certificate matches a hostname without a
dot (`Certificates.WildcardCoversOneLabel`), but such a certificate is only chosen if it verifies for that hostname
(certs/matching.go:55). A load balancer for ingresses with an empty SSL policy would never be in sync
(`Settling.SecondCycleChangesNothing`), but no such ingress reaches the worker: kubernetes/adapter.go:208-216 fills in
the default, and the flag at controller.go:161 only admits known policies.

## Model

| member | source | states |
|---|---|---|
| `Certificates.WildcardCoversOneLabel` | certs/matching.go:112-132 | a wildcard name matches exactly the hostnames with one more left-most label and, beyond the standard, every hostname without a dot |
| `Certificates.DotlessHostnameMatchesAnyWildcard` | certs/matching.go:117-132 | a concrete hostname for which the left-most-label rule fails |
| `Certificates.PlainNameMatchesItself` | certs/matching.go:112-127 | a name without wildcard matches only itself, the wildcard alone everything |
| `Certificates.FindBestMatchingCertificate` | certs/matching.go:45-110 | the nested loops with their five cases compute the fold over all verified, matching names in list order |
| `Certificates.ErrorExactlyWithoutMatch` | certs/matching.go:50-109 | an error is returned exactly when no certificate both verifies and has a matching name; otherwise the choice is one that does |
| `Certificates.MatchLengthNeverDecreases` | certs/matching.go:92-103 | during the scan the length of the matched name never decreases: the fifth case cannot fire for verified certificates |
| `Certificates.OnlyGoodMatchesLengthen` | certs/matching.go:65-74 | the matched name is as long as that of the first match or of a begun certificate with more than seven days left: no other lengthens it |
| `Certificates.ExpiringChoiceGivesWay` | certs/matching.go:75-91 | a choice with less than seven days left gives way to a match of the same length that ends later, unless that has as little left and has begun later, and never to one that ends earlier |
| `Certificates.ChosenCertificateDominates` | certs/matching.go:45-110 | for every list and order: against any begun certificate with more than seven days left, the chosen one has a longer name, or the same length, at least seven days left and a later beginning, or the same beginning and no earlier end |
| `Certificates.ChoiceIsArgmax` | certs/matching.go:50-109 | if all matches have begun and last, the choice maximises match length, then beginning, then end, and this triple is the same for every permutation of the list |
| `Certificates.FindBestMatchingCertificates` | certs/matching.go:23-43 | the result has each best certificate of a hostname once, whatever order the map is read in |
| `Expressions.RoundTrip` | internal/aws/cloudformation/string.go:33-68 | parsing the printed JSON of any typed expression gives the same expression if and only if it holds no list that was parsed from a GetAtt call |
| `Expressions.ReprintingSettles` | internal/aws/cloudformation/func.go:54-112 | for every JSON tree that parses and does not call Fn::If: printing and parsing again reaches a fixed point after one step and prints the same |
| `Expressions.GetAttListDoesNotRoundTrip` | internal/aws/cloudformation/string_list.go:65-70 | a list parsed from a GetAtt call is read back as a different expression |
| `Expressions.ParsedListIsTyped` | internal/aws/cloudformation/string_list.go:44-87 | whatever is accepted as a list is one that Go's types allow to build |
| `Expressions.FirstDecodableWins` | internal/aws/cloudformation/func.go:54-112 | of an object with several keys the first call that decodes is taken, unless a key that names no function comes before it |
| `Expressions.SelectorDenotesNumber` | internal/aws/cloudformation/func_select.go:64-73 | a number that selects an element is kept as a text that denotes it, in exponent form from a million on |
| `Expressions.StringIsListOfOne` | internal/aws/cloudformation/string_list.go:74-82 | a plain string is read as the list of it alone and printed as that list |
| `Stacks.MergeTags` | aws/cf.go:383-391 | later maps win |
| `Stacks.StackTagList` | aws/cf.go:228-288 | the tags sent denote, key by key, the certificates, owner, alarm hash, the controller's marks and the additional tags, with this precedence |
| `Stacks.ParameterRoundTrip` | aws/cf.go:238-280 | each setting that is always passed can be read off the parameters of a create or update request under its own key |
| `Stacks.SubnetsRoundTrip` | aws/cf.go:238-280 | the subnets are got back by splitting their parameter |
| `Stacks.HealthCheckRoundTrip` | aws/cf.go:273-280 | the four health check settings are read back under their own keys |
| `Stacks.HTTPPortRoundTrip` | aws/cf.go:262-267 | a port for plain HTTP is passed exactly if HTTP is enabled and has a port of its own |
| `Stacks.MapToManagedStack` | aws/cf.go:460-512 | what is read from a stack, for every order in which the tags are read; only a certificate recorded in both the old and the new format may lose its deadline |
| `Stacks.StackStateRoundTrip` | aws/cf.go:460-512 | reading back what create or update wrote gives the same certificates (deadlines cut to the second), owner, alarm hash, scheme, security group, SSL policy, address type, type, HTTP/2 and WAF, if additional tags avoid the reserved keys |
| `Stacks.RecordedTimes` | aws/cf.go:465-480 | a certificate is recorded exactly if a tag of the present or the old format names it; what is no timestamp counts as required |
| `Stacks.AdditionalTagsAreWritten` | aws/cf.go:228-234 | additional tags are written, except under the keys that mark the stack |
| `Stacks.WrittenStackIsManaged` | aws/cf.go:531-540 | a written stack is recognised as managed whatever additional tags are configured |
| `Stacks.OnlyOwnStacksAreManaged` | aws/cf.go:531-540 | a stack written by a controller with another name is never managed, and one by a controller with the same name exactly in the same cluster, unless additional tags name clusters or the own cluster has no ID (aws/ec2.go:51-63 always gives it one) |
| `LoadBalancers.LoadBalancer.AddIngress` | worker.go:99-164 | an ingress is accepted exactly if owner and settings are compatible and its new certificates fit, and is then recorded once under each of its certificates; otherwise nothing changes |
| `LoadBalancers.AppendAllOfSet` | worker.go:150-159 | the order in which an ingress's certificates are found does not matter for what is recorded |
| `LoadBalancers.NewCertsOfSet` | worker.go:143-149 | nor for the number of new certificates counted |
| `LoadBalancers.LoadBalancer.CertificateARNs` | worker.go:167-187 | required certificates have zero time; unused recorded ones get or keep a deadline until it has passed |
| `LoadBalancers.LoadBalancer.Owner` | worker.go:192-204 | no owner if shared or empty, otherwise the name of an ingress placed there |
| `Matching.FindMatchingCertificateIDs` | worker.go:244-252 | the ids of the best certificates, without duplicates |
| `Matching.MatchIngressesToLoadBalancers` | worker.go:419-502 | the loop over objects computes first fit on values, and returns the given load balancers followed by new ones |
| `Model.SortStacks` | worker.go:375-382 | the array ends as a permutation of itself, sorted by number of certificates (most first), then name |
| `Model.FullerStacksComeFirst` | worker.go:375-382 | stacks with more certificates come first, among equals the one with the lesser name |
| `Model.GetAllLoadBalancers` | worker.go:384-417 | one fresh load balancer for each stack, with the recorded certificates that are still available |
| `Model.GlobalWAFReachesAll` | worker.go:514-522 | with a global WAF every ingress has one afterwards, its own if it had one; nothing else changes, and a second pass changes nothing |
| `Model.BuildManagedModel` | worker.go:524-540 | sorting, rebuilding, matching and attaching alarms together compute `Listing.Model` |
| `Model.ModelIgnoresOrder` | worker.go:375-417 | with distinct stack names the model is the same for every permutation of the listed stacks |
| `Placements.Conservation` | worker.go:431-498 | every list of ingresses ends as it was, followed by exactly the ingresses placed there under that certificate, in order |
| `Placements.EachIngressPlacedOnce` | worker.go:431-498 | each ingress with certificates ends on exactly one load balancer, once under each of them and under nothing else; each cluster-local one on the cluster-local load balancer, which no other reaches |
| `Placements.OneHostnamePerIngress` | worker.go:596-645 | in one cycle no ingress is patched with two different hostnames |
| `Placements.PlacementIsConsistent` | worker.go:109-139 | after any placements every ingress agrees with its load balancer on scheme, address type, type and HTTP/2, every shared one on security group and WAF; on an owned stack all carry the owner's name, on an unowned one all are shared |
| `Placements.PolicyIsKept` | worker.go:135-162 | from one placement to a later one a load balancer keeps its SSL policy, unless an ingress that is not both shared and annotated sets it |
| `Placements.InsistedPolicyIsServed` | worker.go:135-162 | a shared ingress annotated with an SSL policy finds that policy on the load balancer it is placed on, and ends with it unless a later ingress that does not insist sets another |
| `Placements.LastPlacedDecides` | worker.go:161-162 | the last ingress placed on a load balancer decides its SSL policy and whether it counts as shared |
| `Ownership.UpdateWritesOwner` | worker.go:192-204 | an update writes the owner of an owned stack again exactly if an ingress is placed there and the last one was not shared; otherwise it gives the stack away |
| `Ownership.OwnedStaysUnshared` | worker.go:161-162 | the load balancer of an owned stack never counts as shared if no shared ingress has the owner's name |
| `Ownership.StackStaysOwned` | worker.go:565-579 | over whole runs: a stack stays its owner's as long as every cycle places an ingress on it and the owner's ingresses are not shared |
| `Placements.CertificatesAreAvailable` | worker.go:384-417 | every certificate on any load balancer is in the current list |
| `Placements.PlacementKeepsLimit` | worker.go:141-159 | a load balancer within the limit stays within it |
| `Placements.AboveLimitIsUntouched` | worker.go:476-495 | a load balancer above the limit keeps exactly the certificates and ingresses it was built with |
| `Packing.NewBalancersAreNeeded` | worker.go:476-495 | when a shared ingress opens a load balancer, it and any earlier unowned one of the same settings, and of its SSL policy if it insists on that, end with more certificates than fit on one |
| `Packing.OwnersComeHome` | worker.go:109-148 | an ingress that is not shared goes to the stack it owns if scheme, address type, type and HTTP/2 agree and there is room, or to an earlier one that it owns, whatever its security group, WAF and SSL policy |
| `Packing.OpenedTakesSettings` | worker.go:481-494 | a new load balancer ends with the settings of the ingress that opened it, and without a stack |
| `Packing.UniformIngressesArePacked` | worker.go:431-498 | uniform ingresses without stacks fill all load balancers but the last, and no certificate is on two |
| `Packing.PackingIsMinimal` | worker.go:431-498 | then the number created is the number of distinct certificates divided by the limit, rounded up, and no distribution within the limit uses fewer |
| `Worker.CreateStack` | aws/adapter.go:773-837 | a new stack that requires exactly the load balancer's certificates is created, with the default SSL policy if it has none, exactly unless the policy is unknown or the request is rejected |
| `Worker.UpdateStack` | aws/adapter.go:839-894 | the certificates are written with their deadlines, exactly unless the policy is unknown, the stack cannot be updated or the request is rejected |
| `Worker.ActOn` | worker.go:350-363 | dealing with a load balancer is a step of the state machine, and what its status asks for is done, exactly unless policy, stack or service stand against it |
| `Worker.DoWork` | worker.go:347-365 | building the model and acting on all of it is a run of the state machine from the start of a cycle to its end, over the model that the listing determines, with every request made that is called for |
| `Resolution.PinnedCertificateIsUsed` | worker.go:439-444 | an ingress with a pinned certificate is held by a load balancer exactly if that certificate is listed, and then under it only |
| `Resolution.BestCertificatesAreUsed` | worker.go:445-451 | any other ingress is held only under certificates that verify, match one of its hostnames and are not surpassed by a begun one with more than seven days left, and under one for each hostname that has any |
| `Decisions.StatusIsDecided` | worker.go:69-93 | a load balancer without stack is to be created; a stack with all deadlines passed is to be deleted; any other is to be updated exactly in a first cycle or if it is complete and lacks a certificate in use, records one it should not or without deadline, or differs in alarms, WAF or SSL policy |
| `Decisions.CreatedAsConfigured` | aws/adapter.go:773-837 | a created stack has every parameter and mark that load balancer and configuration call for, a known SSL policy, and exactly the certificates of the load balancer, all required |
| `Decisions.UpdatedAsConfigured` | aws/adapter.go:839-894 | so has an updated one, with certificates in use as required and unused ones with their deadline exactly until it has passed |
| `WholeCycles.CycleBringsUpToDate` | worker.go:347-365 | after a whole cycle, a complete stack that was not due for deletion and whose update is not rejected records each certificate that an ingress placed on it needs as required, of the others only available ones with a deadline, and alarms, WAF and SSL policy of the model |
| `WholeCycles.CycleCreates` | worker.go:347-365 | after a whole cycle each new load balancer whose creation is not rejected has a new stack that is up to date |
| `WholeCycles.CycleDeletes` | worker.go:350-354 | after a whole cycle a stack that was due is being deleted, unless the request is rejected |
| `WholeCycles.EveryIngressIsServed` | worker.go:274-365 | after a whole cycle in which the request for its load balancer is granted, each ingress that some certificate suits has a stack that records its pinned certificate, or for each of its hostnames with a suitable certificate a best one, as required |
| `WholeCycles.HostnameOfReadyStacks` | worker.go:596-629 | the ingresses of a stack are patched with its DNS name exactly once it is complete and its load balancer is active and old enough |
| `ForeignStacks.OthersStacksAreForeign` | aws/cf.go:531-540 | the stacks that a controller with another name or in another cluster writes are marked as foreign |
| `ForeignStacks.ForeignStacksAreLeftAlone` | worker.go:274-365 | over whole runs: no step of the controller changes a stack that is marked as foreign, and once completed it stays exactly as it is |
| `GracePeriods.StepKeepsShield` | worker.go:274-365 | no step of the controller or of CloudFormation, rollbacks and restarts included, ends the grace period early |
| `GracePeriods.GracePeriod` | worker.go:69-83 | over whole runs: a completed stack that records an available certificate as required is not deleted before the time to live, less one second, is over |
| `GracePeriods.DeadlineNeverExtended` | worker.go:167-187 | over whole runs: once recorded, the deadline of an unused certificate that is not also recorded in the old format stays the same or disappears |
| `Safety.ModelIsSound` | worker.go:524-540 | the model only holds available certificates, and each load balancer has a stack or an ingress or is the cluster-local one |
| `Safety.RunStaysSound` | worker.go:69-83 | over whole runs: the status of the next load balancer is always defined, so the cycle can always go on |
| `Safety.SentCertificatesAreAvailable` | worker.go:542-579 | every certificate recorded by a created or updated stack is in the list of the cycle |
| `Safety.CapacityOverRuns` | worker.go:141-159 | over whole runs: if stacks start within the limit and no ingress needs more, no stack records more certificates than allowed, rolled back ones included |
| `Convergence.PlacementFillsUp` | worker.go:431-498 | uniform ingresses whose certificates are all covered open nothing and go where their certificates are |
| `Convergence.RebuiltIsPacked` | worker.go:375-417 | sorting the stacks of packed load balancers rebuilds a packed list |
| `Convergence.SecondCycleHasNothingToDo` | worker.go:69-93 | with the stacks of a first cycle, in any order, every load balancer of the second one is ready |
| `Convergence.NeededIgnoresOrder` | worker.go:419-502 | reordering the ingresses changes neither the certificates needed nor uniformity |
| `Settling.SecondCycleChangesNothing` | worker.go:347-365 | over runs: no stacks, a cycle of accepted creations, a pause, and then the next non-first cycle finds every load balancer ready at any time, exactly if the ingresses have an SSL policy |
| `Settling.ReorderedIngressesChangeNothing` | worker.go:419-502 | the same when the second cycle lists the ingresses in another order |
| `TargetGroups.ComputeDifference` | aws/adapter.go:1222-1234 | the elements of the first list that are not in the second, in order |
| `TargetGroups.DifferenceOfElements` | aws/adapter.go:1222-1234 | as sets, the difference |
| `TargetGroups.RegisterTargetsOnTargetGroups` | aws/elbv2.go:59-79 | the targets are added to the groups up to the first for which the call fails, and to no other |
| `TargetGroups.DeregisterTargetsOnTargetGroups` | aws/elbv2.go:81-101 | the targets are removed from the groups up to the first for which the call fails, and from no other |
| `TargetGroups.SetTargetsOnCNITargetGroups` | aws/adapter.go:1188-1219 | the round ends with the first group that refuses a change it needs; every group passed before ends with exactly the endpoints unless it could not be described; every other group stays as it was |
| `TargetGroups.SetsExactly` | aws/adapter.go:1188-1219 | if no call fails each group ends with exactly the wanted targets; whatever fails, no wanted target is lost and no unwanted one is added |
| `Cni.QueueEndpoints` | kubernetes/pods.go:87-95 | the snapshot is the sorted list of all pod addresses |
| `Cni.SnapshotIsUnique` | kubernetes/pods.go:87-95 | it is determined by the pods, whatever order the map is read in |
| `Cni.TrackedPods` | kubernetes/pods.go:48-77 | tracked are exactly the pods seen running and not terminated since, with the address first seen |
| `Cni.InterleavingsKeepInv` | worker.go:722-746 | in every interleaving the newest snapshot is queued, about to be queued or received, and nothing is overlooked |
| `Cni.Quiescence` | worker.go:722-746 | whenever the handler waits with empty queues and both values, its last call used them, they are the groups sent last and the addresses of the pods tracked now, and unless a request of it failed it left each group with exactly these targets |
| `Cni.HandlerComesToRest` | worker.go:722-746 | each step of the handler brings it closer to rest, and it is stuck only at rest |
| `AutoScaling.TestFilterTags` | aws/asg.go:100-119 | counting matches decides whether all filters match |
| `AutoScaling.TgHasTags` | aws/asg.go:291-299 | some description of the group carries the tags |
| `AutoScaling.HasTags` | aws/asg.go:301-316 | all expected tags are carried |
| `AutoScaling.ProcessChunked` | aws/asg.go:362-378 | the chunks, each within the limit of its service, make up a prefix of the list, and all of it exactly if the action works on each element |
| `AutoScaling.UpdateTargetGroupsForAutoScalingGroup` | aws/asg.go:161-235 | it succeeds exactly if none of the calls it needs fails, and then the attached groups become the reconciled ones; even otherwise wanted and foreign existing groups stay and only existing wanted ones are added |
| `AutoScaling.ReconciledGroups` | aws/asg.go:161-235 | attached afterwards are the existing groups that are wanted, or were attached and are not the controller's |
| `AutoScaling.ReconciledIsStable` | aws/adapter.go:732-736 | a second run changes nothing |
| `AutoScaling.CategorizeTargetType` | aws/asg.go:269-288 | for each target type the given groups that exist and have it |
| `AutoScaling.GetOwnedAndTargetedAutoScalingGroups` | aws/asg.go:121-159 | targeted are the groups that pass all filters, owned those that carry the tags |
| `AutoScaling.NonTargetedASGs` | aws/adapter.go:1174-1184 | the owned groups that are not targeted |
| `Instances.Adapter.UpdateTargetGroupsAndAutoScalingGroups` | aws/adapter.go:707-765 | groups with ip targets go to the CNI handler, all others to the targeted auto scaling groups, nothing to the other owned ones; single instances are registered with all others and obsolete ones deregistered from them, exactly unless a call fails; nothing happens if the types are unknown |
| `Instances.UpdatesAreSafe` | aws/adapter.go:726-748 | whatever fails, no group with ip targets gets attached and no existing foreign group is detached |
| `Instances.Adapter.UpdateAutoScalingGroupsAndInstances` | aws/adapter.go:1059-1100 | the new lists of single and obsolete instances, for each listing that may fail |
| `Instances.Adapter.UpdateInstances` | aws/adapter.go:750-764 | running instances are registered with and obsolete ones deregistered from every group passed, exactly unless a call fails, and only then obsolete ones are forgotten; no other target changes |
| `Instances.NoInstanceIsForgotten` | aws/adapter.go:1059-1086 | over whole histories: an instance once managed is still managed, or still to be deregistered, or has since been a target of none of the groups handled in a cycle whose deregistration fully succeeded |
| `Instances.StandaloneInstancesAreManaged` | aws/adapter.go:1064-1085 | after a listing every listed instance outside of auto scaling groups is managed, with the details listed; one that is no longer listed is obsolete; no other becomes managed |
| `Instances.ManagedInstancesWereStandalone` | aws/adapter.go:1064-1085 | over whole histories: every managed instance was once listed outside of groups, with the details kept of it |
| `Instances.Adapter.RefreshTargets` | worker.go:301-346 | after listing and updating, every running instance listed outside of groups is a target of every group handled unless it is still to be deregistered, and instances no longer listed are targets of none, as far as no call fails; only running managed ones become targets |
| `Subnets.ChooseSubnets` | aws/adapter.go:995-1029 | each zone with a usable subnet has one, and none is preferred to it |
| `Subnets.FindLBSubnets` | aws/adapter.go:989-1042 | the sorted ids of such a choice |
| `Subnets.TaggedSubnetsComeFirst` | aws/adapter.go:989-1029 | exactly the zones with a subnet that may be used get one, a public one unless the scheme is internal, one with the role tag of the scheme if there is any, and among those the one with the least id |
| `Subnets.SubnetsAreDetermined` | aws/adapter.go:989-1042 | they do not depend on the order in which the subnets are listed |
| `Filters.FiltersString` | aws/adapter.go:641-647 | the loop prints the terms and trims the result |
| `Filters.ParseFilters` | aws/adapter.go:1106-1124 | terms are parsed one by one; one malformed term, or no text, gives the default |
| `Filters.MalformedFiltersGiveDefault` | aws/adapter.go:1106-1143 | without text, or if a word has not exactly one equals sign, the filters ask for the owned nodes of the cluster |
| `Filters.FiltersRoundTrip` | aws/adapter.go:641-647 | for filters without separators or spaces, parsing the printed text gives them back if and only if there are any and each has values |
| `StackTemplate.LiteralDimensionReferences` | aws/cloudwatch.go:75-104 | literal dimensions refer, after normalisation, only to attributes of the load balancer and the target group |
| `StackTemplate.Template.Generate` | aws/cf_template.go:44-435 | the generator's branches and loops produce exactly the described parameters, outputs and resources with their references |
| `StackTemplate.HTTPSIsForwarded` | aws/cf_template.go:214-272 | HTTPS is served exactly if there are certificates, and forwarded to the main target group |
| `StackTemplate.HTTPIsForwarded` | aws/cf_template.go:138-212 | HTTP is served exactly unless disabled, and forwarded to a target group of its own exactly if it has a port of its own, or not at all where it is redirected |
| `StackTemplate.InternalTrafficIsDenied` | aws/cf_template.go:175-253 | if internal domains are to be denied, exactly the forwarding listeners of an application load balancer have a rule for it |
| `StackTemplate.FirewallIsAttached` | aws/cf_template.go:392-404 | a firewall is attached exactly to an application load balancer that has one |
| `StackTemplate.TemplateCloses` | aws/cf_template.go:44-435 | every reference names a declared parameter, an added resource or a pseudo parameter, exactly if the type is application or network or there are no certificates, and the alarms bring no open references |
| `StackTemplate.LiteralAlarmsClose` | aws/cloudwatch.go:53-104 | alarms of literals bring none |
| `StackTemplate.PassedParametersMatch` | aws/cf.go:238-280 | create and update pass only declared parameters, and every declared one without a default |

## Left out

- ReprintingSettles: trees that call Fn::If (internal/aws/cloudformation/func_if.go) are not covered, because parsing does not rebuild the typed expression.
- Go pointers: an ingress is a value, so the patched global WAF and hostname are not visible through other references to it. Load balancers, which the matching loop shares and changes, are objects.
- sort.Slice, sort.Strings and strings.TrimSpace, Fields and Split are functions here; only their callers are loops. `SortStacks` writes the sorted values into the array.
- UnmarshalJSON assigns to its receiver; here parsers are functions that return the value. A partially assigned receiver after an error is not modelled.
- JSON null, duplicate and case-insensitive object keys, and selectors of Fn::Select that are not strings or numbers are not part of the JSON trees.
- JSON numbers are natural numbers up to 2^53, which floating point represents exactly.
- Whether a call fails is fixed per group and kind of call while one method runs; it may differ from one run of a method to the next.
- Literal property values of resources, such as ports and protocols: a resource of the template is its kind and what it refers to. The names of the listener certificate resource contain an arbitrary digest in place of SHA-256.
- The calendar text of timestamps: a timestamp is the decimal number of its seconds.
- `time.Now` is read once per call of Status, CertificateARNs and the certificate chooser, where the source reads it several times.
- CloudFormation is assumed to delete stacks only on request or when their creation fails, and to restore tags and parameters when it rolls back; nobody else changes the stacks.
- Termination protection, detaching of target groups before a deletion, and the stack that is read again after an AlreadyExists error: they do not change what a stack records.
- Paging of list calls: describing and listing return complete results or fail.
- Exclusivity of a load balancer created in this cycle for an ingress that is not shared: without a stack there is no owner to check (worker.go:111-122), so it does not hold.
- The SSL policy of annotated ingresses on a shared load balancer is not kept against later ones without annotation (worker.go:161-162); `Placements.PolicyIsKept` says who may change it.
- Cycles on stacks that are still being created or updated: nothing is asked for until they are complete (worker.go:79), so `WholeCycles.EveryIngressIsServed` is about cycles that find them complete.
- The certificate limit for an ingress that alone needs more than the limit does not hold (worker.go:476-480); `Placements.AboveLimitIsUntouched` says what does.
- Convergence: `Settling.SecondCycleChangesNothing` is about ingresses that need one certificate each; ingresses with several are not covered.
- Ordering of events between the pod informer's first list and its handlers: the first list comes first, as in the source; deletions that come without an update event are not seen by the source either.
- The annotation defaults of kubernetes/adapter.go, certificate caching, stack names, status errors, metrics, logging, flags and health endpoints.
