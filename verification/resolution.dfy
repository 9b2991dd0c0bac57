/** Which certificates an ingress ends up with (worker.go, certs/matching.go): said of
    the model that a cycle builds from its listing. */
module Resolution {
  import opened Text
  import opened Clock
  import opened Certificates
  import opened LoadBalancers
  import opened Matching
  import opened Model
  import opened Placements

  // An ingress is held where, and under what, it was placed.

  lemma {:induction false} PlacedContributes(
    start: seq<Balancer>, cl: nat, requests: seq<Request>, maxCerts: int, n: nat, j: nat, arn: string, k: nat)
    requires cl < |start| && k < n <= |requests|
    requires Placement(start, cl, requests, k, maxCerts) == Some(j) && arn in PlacedUnder(requests[k])
    ensures requests[k].ingress in Contributions(start, cl, requests[..n], maxCerts, j, arn)
  {
    hide Placement, PlacedUnder, Contributions, PlaceAll;
    var added := ContributionsGrow(start, cl, requests, maxCerts, n, j, arn);
    if k < n - 1 {
      PlacedContributes(start, cl, requests, maxCerts, n - 1, j, arn, k);
    }
  }

  lemma HeldWherePlaced(start: seq<Balancer>, cl: nat, requests: seq<Request>, maxCerts: int, j: nat, arn: string, k: nat)
    requires cl < |start| && k < |requests|
    requires Placement(start, cl, requests, k, maxCerts) == Some(j) && arn in PlacedUnder(requests[k])
    ensures j < |PlaceAll(start, cl, requests, maxCerts)|
    ensures requests[k].ingress in Under(PlaceAll(start, cl, requests, maxCerts)[j].ingresses, arn)
  {
    TargetExists(start, cl, requests, maxCerts, k);
    PlacedContributes(start, cl, requests, maxCerts, |requests|, j, arn, k);
    assert requests[..|requests|] == requests;
    Conservation(start, cl, requests, maxCerts, j, arn);
  }

  lemma PlacedWhereHeld(
    start: seq<Balancer>, cl: nat, requests: seq<Request>, maxCerts: int, j: nat, arn: string, ingress: Ingress)
    returns (k: nat)
    requires cl < |start| && Unoccupied(start) && j < |PlaceAll(start, cl, requests, maxCerts)|
    requires ingress in Under(PlaceAll(start, cl, requests, maxCerts)[j].ingresses, arn)
    ensures k < |requests| && requests[k].ingress == ingress && arn in PlacedUnder(requests[k])
    ensures Placement(start, cl, requests, k, maxCerts) == Some(j)
  {
    Conservation(start, cl, requests, maxCerts, j, arn);
    assert j < |start| ==> Under(start[j].ingresses, arn) == [];
    assert requests[..|requests|] == requests;
    hide Placement, PlacedUnder, Contributions, PlaceAll;
    ContributorsArePlaced(start, cl, requests, maxCerts, |requests|, j, arn, ingress);
    k :| 0 <= k < |requests| && requests[k].ingress == ingress
         && Placement(start, cl, requests, k, maxCerts) == Some(j) && arn in PlacedUnder(requests[k]);
  }

  /** The i-th load balancer of the model holds the ingress under this key. */
  ghost predicate HeldAt(listing: Listing, ingress: Ingress, i: nat, arn: string) {
    i < |listing.Model()| && ingress in Under(listing.Model()[i].ingresses, arn)
  }

  ghost predicate HeldUnder(listing: Listing, ingress: Ingress, arn: string) {
    exists i: nat :: HeldAt(listing, ingress, i, arn)
  }

  lemma AlarmsHoldNothing(listing: Listing)
    ensures |listing.Model()| == |listing.Placed()|
    ensures forall i :: 0 <= i < |listing.Model()| ==> listing.Model()[i].ingresses == listing.Placed()[i].ingresses
  {
    hide PlaceAll, BalancersOf, WithGlobalWAF, Resolve;
  }

  /** An ingress that is not cluster-local is held under exactly its certificates. */
  lemma HeldUnderItsCertificates(listing: Listing, p: nat, arn: string)
    requires p < |listing.Requests()| && !listing.Requests()[p].ingress.clusterLocal
    ensures var request := listing.Requests()[p];
            HeldUnder(listing, request.ingress, arn) <==> request.certs.Some? && arn in request.certs.value
  {
    var start, requests, request := listing.Start(), listing.Requests(), listing.Requests()[p];
    forall k | 0 <= k < |requests| && requests[k].ingress == request.ingress ensures requests[k].certs == request.certs {
    }
    StartIsPlain(listing);
    AlarmsHoldNothing(listing);
    assert listing.Placed() == PlaceAll(start, |start| - 1, requests, listing.certsPerALB);
    hide PlaceAll, Unoccupied, AllConsistent, Resolve, SortedStacks, BalancersOf, WithGlobalWAF, Listing.Model, Listing.Requests,
         Listing.Start, Listing.Placed, Target;
    forall i: nat | HeldAt(listing, request.ingress, i, arn) ensures request.certs.Some? && arn in request.certs.value {
      var k := PlacedWhereHeld(start, |start| - 1, requests, listing.certsPerALB, i, arn, request.ingress);
    }
    if request.certs.Some? && arn in request.certs.value {
      var at := HeldSomewhere(listing, p);
      assert HeldAt(listing, request.ingress, at, arn);
    }
  }

  lemma HeldSomewhere(listing: Listing, p: nat) returns (at: nat)
    requires p < |listing.Requests()| && !listing.Requests()[p].ingress.clusterLocal && listing.Requests()[p].certs.Some?
    ensures forall arn :: arn in listing.Requests()[p].certs.value ==> HeldAt(listing, listing.Requests()[p].ingress, at, arn)
  {
    var start, requests, request := listing.Start(), listing.Requests(), listing.Requests()[p];
    AlarmsHoldNothing(listing);
    assert listing.Placed() == PlaceAll(start, |start| - 1, requests, listing.certsPerALB);
    hide PlaceAll, Resolve, SortedStacks, BalancersOf, WithGlobalWAF, Listing.Model, Listing.Requests, Listing.Start,
         Listing.Placed, Target;
    at := GoesSomewhere(start, |start| - 1, requests, listing.certsPerALB, p);
    forall arn | arn in request.certs.value ensures HeldAt(listing, request.ingress, at, arn) {
      HeldWherePlaced(start, |start| - 1, requests, listing.certsPerALB, at, arn, p);
    }
  }

  /** One load balancer holds the ingress under all its certificates. */
  lemma HeldTogether(listing: Listing, p: nat, arn: string) returns (at: nat)
    requires p < |listing.Requests()| && !listing.Requests()[p].ingress.clusterLocal
    requires HeldUnder(listing, listing.Requests()[p].ingress, arn)
    ensures var ingress := listing.Requests()[p].ingress;
            HeldAt(listing, ingress, at, arn)
            && forall other :: HeldUnder(listing, ingress, other) ==> HeldAt(listing, ingress, at, other)
  {
    hide Listing.Requests, HeldAt, HeldUnder;
    HeldUnderItsCertificates(listing, p, arn);
    at := HeldSomewhere(listing, p);
    forall other | HeldUnder(listing, listing.Requests()[p].ingress, other)
      ensures other in listing.Requests()[p].certs.value
    {
      HeldUnderItsCertificates(listing, p, other);
    }
  }

  lemma GoesSomewhere(start: seq<Balancer>, cl: nat, requests: seq<Request>, maxCerts: int, k: nat) returns (at: nat)
    requires cl < |start| && k < |requests| && requests[k].certs.Some?
    ensures Placement(start, cl, requests, k, maxCerts) == Some(at)
  {
    at := Placement(start, cl, requests, k, maxCerts).value;
  }

  /** An ingress with a pinned certificate is held exactly if that one is in the list, and
      then under it only, whatever its hostnames. */
  lemma PinnedCertificateIsUsed(listing: Listing, p: nat, arn: string)
    requires p < |listing.Requests()|
    requires var ingress := listing.Requests()[p].ingress; !ingress.clusterLocal && ingress.certificateARN != ""
    ensures var ingress := listing.Requests()[p].ingress;
            HeldUnder(listing, ingress, arn) <==>
              arn == ingress.certificateARN && exists c :: c in listing.certs && c.id == arn
  {
    HeldUnderItsCertificates(listing, p, arn);
    hide HeldUnder;
  }

  /** The certificate verifies for the hostname, and this is one of its names that match. */
  predicate Suits(certs: seq<CertificateSummary>, hostname: string, now: Time, c: CertificateSummary, name: string) {
    c in certs && c.Verify(hostname, now) && name in c.domainNames && PrefixGlob(name, hostname)
  }

  /** A certificate with this id suits the hostname, and no suitable one that has begun and
      lasts has a longer name, or one of the same length and has begun later, or at the same
      time and ends later. */
  ghost predicate BestFor(certs: seq<CertificateSummary>, hostname: string, now: Time, arn: string) {
    exists c: CertificateSummary, name: string ::
      c.id == arn && Suits(certs, hostname, now, c, name) && Unsurpassed(certs, hostname, now, c, name)
  }

  ghost predicate Unsurpassed(
    certs: seq<CertificateSummary>, hostname: string, now: Time, c: CertificateSummary, name: string)
  {
    forall d, other :: Suits(certs, hostname, now, d, other) && d.notBefore < now && d.Lasting(now) ==>
      || |other| < |name|
      || (|other| == |name| && d.notBefore < c.notBefore)
      || (|other| == |name| && d.notBefore == c.notBefore && d.notAfter <= c.notAfter)
  }

  lemma ChoiceIsBest(certs: seq<CertificateSummary>, hostname: string, now: Time)
    ensures var choice := BestChoice(certs, hostname, now);
            && (choice.Chosen? <==> exists c, name :: Suits(certs, hostname, now, c, name))
            && (choice.Chosen? ==> BestFor(certs, hostname, now, choice.best.cert.id))
  {
    hide BestChoice, PrefixGlob, CertificateSummary.Verify;
    ErrorExactlyWithoutMatch(certs, hostname, now);
    var choice := BestChoice(certs, hostname, now);
    if choice.Chosen? {
      var name :| name in choice.best.cert.domainNames && PrefixGlob(name, hostname) && choice.best.nameLength == |name|;
      forall d, other | Suits(certs, hostname, now, d, other) && d.notBefore < now && d.Lasting(now)
        ensures RankLe(Match(d, |other|), choice.best)
      {
        ChosenCertificateDominates(certs, hostname, now, d, other);
      }
      assert Suits(certs, hostname, now, choice.best.cert, name);
      assert Unsurpassed(certs, hostname, now, choice.best.cert, name);
    }
    if c, name :| Suits(certs, hostname, now, c, name) {
      assert c in certs && name in c.domainNames && c.Verify(hostname, now) && PrefixGlob(name, hostname);
    }
  }

  /** An ingress without a pinned certificate is only held under the best certificates of
      its hostnames, and under one for each hostname that some certificate suits. */
  lemma BestCertificatesAreUsed(listing: Listing, p: nat)
    requires p < |listing.Requests()|
    requires var ingress := listing.Requests()[p].ingress; !ingress.clusterLocal && ingress.certificateARN == ""
    ensures var ingress, certs, now := listing.Requests()[p].ingress, listing.certs, listing.now;
            && (forall arn :: HeldUnder(listing, ingress, arn) ==>
                  exists h :: h in ingress.hostnames && BestFor(certs, h, now, arn))
            && (forall h, c, name :: h in ingress.hostnames && Suits(certs, h, now, c, name) ==>
                  exists arn :: HeldUnder(listing, ingress, arn) && BestFor(certs, h, now, arn))
  {
    var ingress, certs, now := listing.Requests()[p].ingress, listing.certs, listing.now;
    var needed := listing.Requests()[p].certs;
    assert (if needed.Some? then needed.value else {}) == MatchedIds(certs, ingress.hostnames, now);
    hide HeldUnder, BestFor, Suits, BestChoice, Listing.Requests;
    forall h ensures BestChoice(certs, h, now).Chosen? <==> exists c, name :: Suits(certs, h, now, c, name)
             ensures BestChoice(certs, h, now).Chosen? ==> BestFor(certs, h, now, BestChoice(certs, h, now).best.cert.id)
    {
      ChoiceIsBest(certs, h, now);
    }
    forall arn ensures HeldUnder(listing, ingress, arn) <==> arn in MatchedIds(certs, ingress.hostnames, now) {
      HeldUnderItsCertificates(listing, p, arn);
    }
    forall h, c, name | h in ingress.hostnames && Suits(certs, h, now, c, name)
      ensures exists arn :: HeldUnder(listing, ingress, arn) && BestFor(certs, h, now, arn)
    {
      assert BestChoice(certs, h, now).best.cert.id in MatchedIds(certs, ingress.hostnames, now);
    }
  }
}
