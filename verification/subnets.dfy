/** The subnets of a load balancer (aws/adapter.go). */
module Subnets {
  import opened Text
  import opened Sorting
  import opened LoadBalancers
  import opened Values

  const ELB_ROLE_TAG := "kubernetes.io/role/elb"
  const INTERNAL_ELB_ROLE_TAG := "kubernetes.io/role/internal-elb"
  const SCHEME_INTERNAL := "internal"

  datatype Subnet = Subnet(id: string, availabilityZone: string, tags: map<string, string>, public: bool)

  function RoleTag(scheme: string): string {
    if scheme == SCHEME_INTERNAL then INTERNAL_ELB_ROLE_TAG else ELB_ROLE_TAG
  }

  /** Private subnets are only for internal load balancers. */
  predicate Usable(subnet: Subnet, scheme: string) {
    scheme == SCHEME_INTERNAL || subnet.public
  }

  /** a goes before b: it has the role tag and b has not, or neither differs in that and
      its id is not greater. */
  predicate Preferred(a: Subnet, b: Subnet, scheme: string) {
    var tag := RoleTag(scheme);
    if (tag in a.tags) != (tag in b.tags) then tag in a.tags else Le(a.id, b.id)
  }

  /** chosen has one subnet for each zone with a usable one, and none is preferred to it. */
  ghost predicate Chooses(chosen: map<string, Subnet>, subnets: set<Subnet>, scheme: string) {
    && (forall az :: az in chosen ==>
          chosen[az] in subnets && Usable(chosen[az], scheme) && chosen[az].availabilityZone == az)
    && (forall subnet :: subnet in subnets && Usable(subnet, scheme) ==>
          subnet.availabilityZone in chosen && Preferred(chosen[subnet.availabilityZone], subnet, scheme))
  }

  function SubnetIDs(chosen: map<string, Subnet>): map<string, string> {
    map az | az in chosen :: chosen[az].id
  }

  lemma PreferredIsLinear(a: Subnet, b: Subnet, c: Subnet, scheme: string)
    ensures Preferred(a, b, scheme) || Preferred(b, a, scheme)
    ensures Preferred(a, b, scheme) && Preferred(b, c, scheme) ==> Preferred(a, c, scheme)
    ensures Preferred(a, b, scheme) && Preferred(b, a, scheme) ==> a.id == b.id
  {
    hide Le;
    LeTotal(a.id, b.id);
    if Le(a.id, b.id) && Le(b.id, c.id) {
      LeTransitive(a.id, b.id, c.id);
    }
    if Le(a.id, b.id) && Le(b.id, a.id) {
      LeAntisymmetric(a.id, b.id);
    }
  }

  method ChooseSubnets(subnets: seq<Subnet>, scheme: string) returns (subnetsByAZ: map<string, Subnet>)
    ensures Chooses(subnetsByAZ, Elements(subnets), scheme)
  {
    subnetsByAZ := map[];
    for i := 0 to |subnets|
      invariant Chooses(subnetsByAZ, Elements(subnets[..i]), scheme)
    {
      var subnet := subnets[i];
      assert Elements(subnets[..i + 1]) == Elements(subnets[..i]) + {subnet};
      if scheme != SCHEME_INTERNAL && !subnet.public {
        continue;
      }
      if subnet.availabilityZone !in subnetsByAZ {
        FirstChoice(subnetsByAZ, Elements(subnets[..i]), scheme, subnet);
        subnetsByAZ := subnetsByAZ[subnet.availabilityZone := subnet];
        continue;
      }
      var existing := subnetsByAZ[subnet.availabilityZone];
      NextChoice(subnetsByAZ, Elements(subnets[..i]), scheme, subnet);
      var existingHasTag := RoleTag(scheme) in existing.tags;
      var subnetHasTag := RoleTag(scheme) in subnet.tags;
      if existingHasTag != subnetHasTag {
        if subnetHasTag {
          subnetsByAZ := subnetsByAZ[subnet.availabilityZone := subnet];
        }
        continue;
      }
      if !Le(existing.id, subnet.id) {
        subnetsByAZ := subnetsByAZ[subnet.availabilityZone := subnet];
      }
    }
    assert subnets[..|subnets|] == subnets;
  }

  lemma FirstChoice(chosen: map<string, Subnet>, subnets: set<Subnet>, scheme: string, subnet: Subnet)
    requires Chooses(chosen, subnets, scheme) && Usable(subnet, scheme) && subnet.availabilityZone !in chosen
    ensures Chooses(chosen[subnet.availabilityZone := subnet], subnets + {subnet}, scheme)
  {
    PreferredIsLinear(subnet, subnet, subnet, scheme);
    hide Preferred, Usable;
  }

  lemma NextChoice(chosen: map<string, Subnet>, subnets: set<Subnet>, scheme: string, subnet: Subnet)
    requires Chooses(chosen, subnets, scheme) && Usable(subnet, scheme) && subnet.availabilityZone in chosen
    ensures var existing := chosen[subnet.availabilityZone];
            && (Preferred(existing, subnet, scheme) ==> Chooses(chosen, subnets + {subnet}, scheme))
            && (Preferred(subnet, existing, scheme) ==>
                  Chooses(chosen[subnet.availabilityZone := subnet], subnets + {subnet}, scheme))
            && (Preferred(existing, subnet, scheme) || Preferred(subnet, existing, scheme))
  {
    var existing := chosen[subnet.availabilityZone];
    PreferredIsLinear(existing, subnet, subnet, scheme);
    PreferredIsLinear(subnet, subnet, subnet, scheme);
    forall other | other in subnets && Preferred(subnet, existing, scheme) && Preferred(existing, other, scheme)
      ensures Preferred(subnet, other, scheme)
    {
      PreferredIsLinear(subnet, existing, other, scheme);
    }
    hide Preferred, Usable;
  }

  /** One subnet for each zone, in sorted order. */
  method FindLBSubnets(subnets: seq<Subnet>, scheme: string) returns (subnetIDs: seq<string>)
    ensures exists chosen :: Chooses(chosen, Elements(subnets), scheme) && ListsValues(SubnetIDs(chosen), subnetIDs)
  {
    hide KeysOf, Preorder, SortedBy, Separates, SortStrings, Preferred, Usable, Chooses;
    var subnetsByAZ := ChooseSubnets(subnets, scheme);
    ghost var ids := SubnetIDs(subnetsByAZ);
    var unsorted: seq<string> := [];
    var remaining := subnetsByAZ.Keys;
    NoValues(ids - remaining);
    while remaining != {}
      invariant remaining <= subnetsByAZ.Keys
      invariant forall id :: multiset(unsorted)[id] == |KeysOf(ids - remaining, id)|
    {
      var az :| az in remaining;
      OneValueMore(ids, remaining, az);
      unsorted := unsorted + [subnetsByAZ[az].id];
      remaining := remaining - {az};
    }
    assert ids - {} == ids;
    subnetIDs := SortStrings(unsorted);
    SortedStrings(unsorted);
  }

  /** The zones that get a subnet are those with a subnet that may be used, which for a load
      balancer that is not internal must be public. Each gets one that carries the role tag
      for the scheme if any does, and among those the one with the least id. */
  lemma TaggedSubnetsComeFirst(chosen: map<string, Subnet>, subnets: set<Subnet>, scheme: string, other: Subnet)
    requires Chooses(chosen, subnets, scheme)
    requires other in subnets && (scheme == "internal" || other.public)
    ensures var az := other.availabilityZone;
            && az in chosen && chosen[az] in subnets && chosen[az].availabilityZone == az
            && (scheme == "internal" || chosen[az].public)
    ensures var best := chosen[other.availabilityZone];
            var tag := if scheme == "internal" then "kubernetes.io/role/internal-elb" else "kubernetes.io/role/elb";
            && (tag in other.tags ==> tag in best.tags)
            && ((tag in other.tags <==> tag in best.tags) ==> Le(best.id, other.id))
    ensures forall az :: az in chosen ==>
      exists subnet :: subnet in subnets && subnet.availabilityZone == az && (scheme == "internal" || subnet.public)
  {
    forall az | az in chosen
      ensures exists subnet :: subnet in subnets && subnet.availabilityZone == az && (scheme == "internal" || subnet.public)
    {
      assert chosen[az] in subnets;
    }
  }

  /** The subnets found do not depend on the order in which they are listed. */
  lemma SubnetsAreDetermined(
    subnets: set<Subnet>, scheme: string, a: map<string, Subnet>, b: map<string, Subnet>, x: seq<string>, y: seq<string>)
    requires Chooses(a, subnets, scheme) && Chooses(b, subnets, scheme)
    requires ListsValues(SubnetIDs(a), x) && ListsValues(SubnetIDs(b), y)
    ensures x == y
  {
    forall az ensures az in a <==> az in b
              ensures az in a ==> a[az].id == b[az].id
    {
      if az in a {
        assert a[az] in subnets;
        PreferredIsLinear(a[az], b[az], b[az], scheme);
      }
      if az in b {
        assert b[az] in subnets;
      }
    }
    assert SubnetIDs(a) == SubnetIDs(b);
    ListingIsUnique(SubnetIDs(a), x, y);
  }
}
