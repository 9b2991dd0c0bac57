/** The load balancers of the controller's model (worker.go): which ingresses they
    accept, which certificates they ask for, and what is to be done with their stacks. */
module LoadBalancers {
  import opened Text
  import opened Clock
  import opened Alarms
  import opened Stacks
  import opened Certificates

  /** An ingress or route group. */
  datatype Ingress = Ingress(
    resourceType: string,
    namespace: string,
    name: string,
    shared: bool,
    http2: bool,
    clusterLocal: bool,
    certificateARN: string,
    hostnames: seq<string>,
    scheme: string,
    securityGroup: string,
    sslPolicy: string,
    hasSSLPolicyAnnotation: bool,
    ipAddressType: string,
    loadBalancerType: string,
    wafWebACLID: string)
  {
    function ResourceName(): string { namespace + "/" + name }
  }

  datatype LoadBalancerState = LoadBalancerState(createdTime: Time, active: bool)

  datatype Status = Ready | Update | Missing | Delete

  const DEFAULT_CLUSTER_LOCAL_DOMAIN := ".cluster.local"

  type Assignments = map<string, seq<Ingress>>

  /** The ingresses recorded under a certificate. */
  function Under(m: Assignments, arn: string): seq<Ingress> {
    if arn in m then m[arn] else []
  }

  function AddUnder(m: Assignments, arns: set<string>, ingress: Ingress): Assignments {
    map arn | arn in m.Keys + arns :: if arn in arns then Under(m, arn) + [ingress] else m[arn]
  }

  /** The value of a load balancer. */
  datatype Balancer = Balancer(
    ingresses: Assignments,
    scheme: string,
    stack: Option<Stack>,
    state: Option<LoadBalancerState>,
    existingStackCertificateARNs: map<string, Time>,
    shared: bool,
    http2: bool,
    clusterLocal: bool,
    securityGroup: string,
    sslPolicy: string,
    ipAddressType: string,
    wafWebACLID: string,
    certTTL: Duration,
    cwAlarms: AlarmList,
    loadBalancerType: string)
  {
    function StackOwner(): string {
      if stack.Some? then stack.value.ownerIngress else ""
    }

    /** The settings and the owner allow this ingress. */
    predicate Compatible(ingress: Ingress) {
      && (StackOwner() == "" || ingress.ResourceName() == StackOwner())
      && (ingress.shared || ingress.ResourceName() == StackOwner())
      && ipAddressType == ingress.ipAddressType
      && scheme == ingress.scheme
      && loadBalancerType == ingress.loadBalancerType
      && http2 == ingress.http2
      && (ingress.shared ==>
            && securityGroup == ingress.securityGroup
            && (ingress.hasSSLPolicyAnnotation ==> sslPolicy == ingress.sslPolicy)
            && wafWebACLID == ingress.wafWebACLID)
    }

    /** There is room for the certificates that are not yet present. */
    predicate Fits(arns: set<string>, maxCerts: int) {
      |ingresses| + |arns - ingresses.Keys| <= maxCerts
    }

    predicate Accepts(arns: set<string>, ingress: Ingress, maxCerts: int) {
      Compatible(ingress) && Fits(arns, maxCerts)
    }

    function Add(arns: set<string>, ingress: Ingress): Balancer {
      this.(ingresses := AddUnder(ingresses, arns, ingress), shared := ingress.shared, sslPolicy := ingress.sslPolicy)
    }

    function AddLocal(ingress: Ingress): Balancer {
      this.(ingresses := AddUnder(ingresses, {DEFAULT_CLUSTER_LOCAL_DOMAIN}, ingress))
    }

    /** The certificates that at least one ingress needs. */
    function Required(): set<string> {
      set arn | arn in ingresses && ingresses[arn] != []
    }

    /** The certificates that no ingress needs but that keep their place for now. */
    function Retained(now: Time): set<string> {
      set arn | arn in existingStackCertificateARNs && arn !in Required()
        && (IsZero(existingStackCertificateARNs[arn]) || existingStackCertificateARNs[arn] > now)
    }

    function CertificateARNs(now: Time): map<string, Time> {
      map arn | arn in Required() + Retained(now) ::
        if arn in Required() then ZERO
        else if IsZero(existingStackCertificateARNs[arn]) then now + certTTL
        else existingStackCertificateARNs[arn]
    }

    predicate InSync(now: Time)
      requires stack.Some?
    {
      && CertificateARNs(now) == stack.value.certificateARNs
      && stack.value.cwAlarmConfigHash == cwAlarms.Hash()
      && wafWebACLID == stack.value.wafWebACLID
      && sslPolicy == stack.value.sslPolicy
    }

    /** The load balancer has a reason to be in the model. */
    predicate Grounded() {
      clusterLocal || stack.Some? || ingresses != map[]
    }

    function Status(now: Time, firstRun: bool): Status
      requires Grounded()
    {
      if clusterLocal then Ready
      else if stack.Some? && stack.value.ShouldDelete(now) then Delete
      else if ingresses != map[] && stack.None? then Missing
      else if firstRun || (!InSync(now) && stack.value.IsComplete()) then Update
      else Ready
    }

    /** Some ingress that is placed here. */
    predicate Holds(ingress: Ingress) {
      exists arn :: arn in ingresses && ingress in ingresses[arn]
    }

    /** A name that the owner of the stack may be read as: no name for a shared load
        balancer, and otherwise the name of any ingress that is placed here. */
    ghost predicate MayBeOwner(owner: string) {
      if shared || Required() == {} then owner == ""
      else exists ingress :: Holds(ingress) && owner == ingress.ResourceName()
    }
  }

  // What the loops of addIngress compute for a list of certificates.

  function NewCerts(m: Assignments, arns: seq<string>): (n: nat)
    ensures n <= |arns|
  {
    if arns == [] then 0
    else NewCerts(m, arns[..|arns| - 1]) + if arns[|arns| - 1] in m then 0 else 1
  }

  function AppendAll(m: Assignments, arns: seq<string>, ingress: Ingress): Assignments {
    if arns == [] then m
    else
      var before, arn := AppendAll(m, arns[..|arns| - 1], ingress), arns[|arns| - 1];
      before[arn := Under(before, arn) + [ingress]]
  }

  function Elements<T>(s: seq<T>): set<T> { set x | x in s }

  lemma ElementsOfFront<T>(s: seq<T>)
    requires s != [] && NoDuplicates(s)
    ensures Elements(s) == Elements(s[..|s| - 1]) + {s[|s| - 1]}
    ensures s[|s| - 1] !in Elements(s[..|s| - 1]) && NoDuplicates(s[..|s| - 1])
  {
  }

  lemma OneMoreNew<T>(s: set<T>, x: T, known: set<T>)
    requires x !in s
    ensures |(s + {x}) - known| == |s - known| + if x in known then 0 else 1
  {
    assert (s + {x}) - known == if x in known then s - known else s - known + {x};
  }

  // Without duplicates only the set of certificates matters, not their order.

  lemma {:induction false} NewCertsOfSet(m: Assignments, arns: seq<string>)
    requires NoDuplicates(arns)
    ensures NewCerts(m, arns) == |Elements(arns) - m.Keys|
  {
    if arns != [] {
      var front, last := arns[..|arns| - 1], arns[|arns| - 1];
      ElementsOfFront(arns);
      hide NoDuplicates, Elements;
      NewCertsOfSet(m, front);
      OneMoreNew(Elements(front), last, m.Keys);
    }
  }

  lemma {:induction false} AppendAllOfSet(m: Assignments, arns: seq<string>, ingress: Ingress)
    requires NoDuplicates(arns)
    ensures AppendAll(m, arns, ingress) == AddUnder(m, Elements(arns), ingress)
  {
    if arns == [] {
      assert m.Keys + Elements(arns) == m.Keys;
    } else {
      var front, last := arns[..|arns| - 1], arns[|arns| - 1];
      ElementsOfFront(arns);
      AppendAllOfSet(m, front, ingress);
      AddUnderOneMore(m, Elements(front), last, ingress);
    }
  }

  lemma AddUnderOne(m: Assignments, arn: string, ingress: Ingress)
    ensures AddUnder(m, {arn}, ingress) == m[arn := if arn in m then m[arn] + [ingress] else [ingress]]
  {
    assert [] + [ingress] == [ingress];
  }

  lemma AddUnderOneMore(m: Assignments, arns: set<string>, arn: string, ingress: Ingress)
    requires arn !in arns
    ensures var before := AddUnder(m, arns, ingress);
            before[arn := Under(before, arn) + [ingress]] == AddUnder(m, arns + {arn}, ingress)
  {
  }

  /** A load balancer as the source keeps it. */
  class LoadBalancer {
    var ingresses: Assignments
    const scheme: string
    const stack: Option<Stack>
    const state: Option<LoadBalancerState>
    const existingStackCertificateARNs: map<string, Time>
    var shared: bool
    const http2: bool
    const clusterLocal: bool
    const securityGroup: string
    var sslPolicy: string
    const ipAddressType: string
    const wafWebACLID: string
    const certTTL: Duration
    var cwAlarms: AlarmList
    const loadBalancerType: string

    constructor (b: Balancer)
      ensures View() == b
    {
      ingresses, scheme, stack, state := b.ingresses, b.scheme, b.stack, b.state;
      existingStackCertificateARNs := b.existingStackCertificateARNs;
      shared, http2, clusterLocal := b.shared, b.http2, b.clusterLocal;
      securityGroup, sslPolicy, ipAddressType := b.securityGroup, b.sslPolicy, b.ipAddressType;
      wafWebACLID, certTTL, cwAlarms, loadBalancerType := b.wafWebACLID, b.certTTL, b.cwAlarms, b.loadBalancerType;
    }

    function View(): Balancer
      reads this
    {
      Balancer(ingresses, scheme, stack, state, existingStackCertificateARNs, shared, http2, clusterLocal,
               securityGroup, sslPolicy, ipAddressType, wafWebACLID, certTTL, cwAlarms, loadBalancerType)
    }

    method AddIngress(certificateARNs: seq<string>, ingress: Ingress, maxCerts: int) returns (added: bool)
      modifies this`ingresses, this`shared, this`sslPolicy
      ensures ingress.clusterLocal ==> added && View() == old(View()).AddLocal(ingress)
      ensures !ingress.clusterLocal ==> (
        added <==> old(View()).Compatible(ingress)
                   && |old(ingresses)| + NewCerts(old(ingresses), certificateARNs) <= maxCerts)
      ensures !ingress.clusterLocal && added ==> View() == old(View()).(
        ingresses := AppendAll(old(ingresses), certificateARNs, ingress),
        shared := ingress.shared, sslPolicy := ingress.sslPolicy)
      ensures !added ==> View() == old(View())
    {
      if ingress.clusterLocal {
        AddUnderOne(ingresses, DEFAULT_CLUSTER_LOCAL_DOMAIN, ingress);
        if DEFAULT_CLUSTER_LOCAL_DOMAIN in ingresses {
          ingresses := ingresses[DEFAULT_CLUSTER_LOCAL_DOMAIN := ingresses[DEFAULT_CLUSTER_LOCAL_DOMAIN] + [ingress]];
        } else {
          ingresses := ingresses[DEFAULT_CLUSTER_LOCAL_DOMAIN := [ingress]];
        }
        return true;
      }

      var resourceName := ingress.ResourceName();
      var owner := "";
      if stack.Some? {
        owner := stack.value.ownerIngress;
      }
      if owner != "" && resourceName != owner {
        return false;
      }
      if !ingress.shared && resourceName != owner {
        return false;
      }
      if ipAddressType != ingress.ipAddressType || scheme != ingress.scheme
         || loadBalancerType != ingress.loadBalancerType || http2 != ingress.http2 {
        return false;
      }
      if ingress.shared && (securityGroup != ingress.securityGroup
                            || (ingress.hasSSLPolicyAnnotation && sslPolicy != ingress.sslPolicy)
                            || wafWebACLID != ingress.wafWebACLID) {
        return false;
      }

      var newCerts := CountNewCerts(certificateARNs);
      if |ingresses| + newCerts > maxCerts {
        return false;
      }

      AppendIngress(certificateARNs, ingress);
      shared := ingress.shared;
      sslPolicy := ingress.sslPolicy;
      return true;
    }

    method CountNewCerts(certificateARNs: seq<string>) returns (newCerts: nat)
      ensures newCerts == NewCerts(ingresses, certificateARNs)
    {
      newCerts := 0;
      for i := 0 to |certificateARNs|
        invariant newCerts == NewCerts(ingresses, certificateARNs[..i])
      {
        assert certificateARNs[..i + 1][..i] == certificateARNs[..i];
        if certificateARNs[i] in ingresses {
          continue;
        }
        newCerts := newCerts + 1;
      }
      assert certificateARNs[..|certificateARNs|] == certificateARNs;
    }

    method AppendIngress(certificateARNs: seq<string>, ingress: Ingress)
      modifies this`ingresses
      ensures ingresses == AppendAll(old(ingresses), certificateARNs, ingress)
    {
      for i := 0 to |certificateARNs|
        invariant ingresses == AppendAll(old(ingresses), certificateARNs[..i], ingress)
      {
        assert certificateARNs[..i + 1][..i] == certificateARNs[..i];
        ingresses := ingresses[certificateARNs[i] := Under(ingresses, certificateARNs[i]) + [ingress]];
      }
      assert certificateARNs[..|certificateARNs|] == certificateARNs;
    }

    method CertificateARNs(now: Time) returns (certificates: map<string, Time>)
      ensures certificates == View().CertificateARNs(now)
    {
      certificates := map[];
      var remaining := ingresses.Keys;
      while remaining != {}
        invariant remaining <= ingresses.Keys
        invariant certificates == map arn | arn in View().Required() - remaining :: ZERO
      {
        var arn :| arn in remaining;
        if |ingresses[arn]| > 0 {
          certificates := certificates[arn := ZERO];
        }
        remaining := remaining - {arn};
      }
      remaining := existingStackCertificateARNs.Keys;
      while remaining != {}
        invariant remaining <= existingStackCertificateARNs.Keys
        invariant certificates.Keys == View().Required() + (View().Retained(now) - remaining)
        invariant forall arn :: arn in certificates ==> certificates[arn] == View().CertificateARNs(now)[arn]
      {
        var arn :| arn in remaining;
        var ttl := existingStackCertificateARNs[arn];
        if arn !in certificates {
          if IsZero(ttl) {
            certificates := certificates[arn := now + certTTL];
          } else if ttl > now {
            certificates := certificates[arn := ttl];
          }
        }
        remaining := remaining - {arn};
      }
    }

    method Owner() returns (owner: string)
      ensures View().MayBeOwner(owner)
    {
      if shared {
        return "";
      }
      var remaining := ingresses.Keys;
      while remaining != {}
        invariant remaining <= ingresses.Keys
        invariant forall arn :: arn in ingresses.Keys - remaining ==> ingresses[arn] == []
      {
        var arn :| arn in remaining;
        if ingresses[arn] != [] {
          assert arn in View().Required();
          assert View().Holds(ingresses[arn][0]);
          return ingresses[arn][0].ResourceName();
        }
        remaining := remaining - {arn};
      }
      return "";
    }
  }
}
