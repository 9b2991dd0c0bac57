/** The generated stack template (aws/cf_template.go, aws/cloudwatch.go): its parameters,
    and its resources and outputs with what they refer to. */
module StackTemplate {
  import opened Text
  import opened Expressions
  import opened Alarms
  import opened Stacks
  import opened LoadBalancers
  import opened Matching

  const LOAD_BALANCER := "LB"
  const HTTPS_TARGET_GROUP := "TG"
  const HTTP_TARGET_GROUP := "TGHTTP"
  const HTTP_LISTENER := "HTTPListener"
  const HTTPS_LISTENER := "HTTPSListener"
  const LISTENER_CERTIFICATE := "HTTPSListenerCertificate"
  const HTTP_DENY_RULE := "HTTPRuleBlockInternalTraffic"
  const HTTPS_DENY_RULE := "HTTPSRuleBlockInternalTraffic"
  const WAF_ASSOCIATION := "WAFAssociation"
  const CLOUDWATCH_ALARM := "CloudWatchAlarm"
  const STACK_NAME := "AWS::StackName"

  const PSEUDO_PARAMETERS: set<string> :=
    {"AWS::AccountId", "AWS::NotificationARNs", "AWS::NoValue", "AWS::Partition", "AWS::Region", "AWS::StackId", STACK_NAME,
     "AWS::URLSuffix"}

  /** A reference by name, to an attribute of a resource, or to a mapping. */
  datatype Reference = To(name: string) | ToAttributeOf(resource: string) | ToMapping(mapName: string)

  datatype Resource = Resource(kind: string, references: set<Reference>)

  type Resources = map<string, Resource>

  // What an expression refers to.

  function References(x: StringExpr): set<Reference> {
    match x
    case Literal(_) => {}
    case Computed(f) => FuncReferences(f)
  }

  function ListReferences(x: StringListExpr): set<Reference> {
    match x
    case Literals(items) => ItemReferences(items)
    case ComputedList(f) => FuncReferences(f)
    case Wrapped(inner) => ListReferences(inner)
  }

  function ItemReferences(items: seq<StringExpr>): set<Reference> {
    if items == [] then {} else References(items[0]) + ItemReferences(items[1..])
  }

  function FuncReferences(f: Func): set<Reference> {
    match f
    case Ref(name) => {To(name)}
    case Join(_, items) => ListReferences(items)
    case Select(_, items) => ListReferences(items)
    case GetAtt(resource, _) => {ToAttributeOf(resource)}
    case FindInMap(mapName, top, second) => {ToMapping(mapName)} + References(top) + References(second)
    case Base64(value) => References(value)
    case GetAZs(region) => References(region)
    case ImportValue(value) => References(value)
  }

  // Alarms.

  function NormalizeAlarmName(alarmName: Option<StringExpr>): Option<StringExpr> {
    match alarmName
    case None => None
    case Some(name) => Some(Computed(Join("-", Literals([Computed(Ref(STACK_NAME)), name]))))
  }

  function NormalizeAlarmNamespace(namespace: Option<StringExpr>): StringExpr {
    if namespace.None? then Literal("AWS/ApplicationELB") else namespace.value
  }

  function NormalizeAlarmDimension(dimension: Dimension): Dimension {
    if dimension.name == Literal("LoadBalancer") then
      dimension.(value := Computed(GetAtt(LOAD_BALANCER, "LoadBalancerFullName")))
    else if dimension.name == Literal("TargetGroup") then
      dimension.(value := Computed(GetAtt(HTTPS_TARGET_GROUP, "TargetGroupFullName")))
    else dimension
  }

  function DefaultAlarmDimensions(): seq<Dimension> {
    [Dimension(Literal("LoadBalancer"), Computed(GetAtt(LOAD_BALANCER, "LoadBalancerFullName")))]
  }

  method NormalizeAlarmDimensions(alarmDimensions: seq<Dimension>) returns (dimensions: seq<Dimension>)
    ensures dimensions == NormalizedDimensions(alarmDimensions)
  {
    if |alarmDimensions| == 0 {
      return DefaultAlarmDimensions();
    }
    dimensions := [];
    for i := 0 to |alarmDimensions|
      invariant |dimensions| == i && forall j :: 0 <= j < i ==> dimensions[j] == NormalizeAlarmDimension(alarmDimensions[j])
    {
      dimensions := dimensions + [NormalizeAlarmDimension(alarmDimensions[i])];
    }
  }

  function NormalizedDimensions(alarmDimensions: seq<Dimension>): seq<Dimension> {
    if alarmDimensions == [] then DefaultAlarmDimensions()
    else seq(|alarmDimensions|, i requires 0 <= i < |alarmDimensions| => NormalizeAlarmDimension(alarmDimensions[i]))
  }

  function DimensionReferences(dimensions: seq<Dimension>): set<Reference> {
    set i, r | 0 <= i < |dimensions| && r in References(dimensions[i].name) + References(dimensions[i].value) :: r
  }

  function PropertyReferences(properties: seq<StringListExpr>): set<Reference> {
    set i, r | 0 <= i < |properties| && r in ListReferences(properties[i]) :: r
  }

  function AlarmReferences(alarm: Alarm): set<Reference> {
    ReferencesWith(alarm, NormalizedDimensions(alarm.dimensions))
  }

  function ReferencesWith(alarm: Alarm, dimensions: seq<Dimension>): set<Reference> {
    (if alarm.alarmName.Some? then References(NormalizeAlarmName(alarm.alarmName).value) else {})
    + References(NormalizeAlarmNamespace(alarm.namespace))
    + DimensionReferences(dimensions)
    + PropertyReferences(alarm.properties)
  }

  predicate LiteralExpr(x: StringExpr) { x.Literal? }

  predicate LiteralList(x: StringListExpr) {
    x.Literals? && forall item :: item in x.items ==> LiteralExpr(item)
  }

  /** An alarm without functions in it. */
  predicate LiteralAlarm(alarm: Alarm) {
    && (alarm.alarmName.Some? ==> LiteralExpr(alarm.alarmName.value))
    && (alarm.namespace.Some? ==> LiteralExpr(alarm.namespace.value))
    && (forall d :: d in alarm.dimensions ==> LiteralExpr(d.name) && LiteralExpr(d.value))
    && (forall p :: p in alarm.properties ==> LiteralList(p))
  }

  lemma {:induction false} LiteralItemsHaveNoReferences(items: seq<StringExpr>)
    requires forall item :: item in items ==> LiteralExpr(item)
    ensures ItemReferences(items) == {}
  {
    if items != [] {
      assert LiteralExpr(items[0]);
      LiteralItemsHaveNoReferences(items[1..]);
    }
  }

  lemma LiteralNameReferences(name: StringExpr)
    requires LiteralExpr(name)
    ensures References(NormalizeAlarmName(Some(name)).value) == {To(STACK_NAME)}
  {
    var items := [Computed(Ref(STACK_NAME)), name];
    assert items[1..] == [name] && [name][1..] == [];
    assert References(items[0]) == {To(STACK_NAME)};
    assert ItemReferences([name]) == {};
    assert ItemReferences(items) == {To(STACK_NAME)};
    assert ListReferences(Literals(items)) == {To(STACK_NAME)};
    assert FuncReferences(Join("-", Literals(items))) == {To(STACK_NAME)};
  }

  lemma LiteralDimensionReferences(alarmDimensions: seq<Dimension>)
    requires forall d :: d in alarmDimensions ==> LiteralExpr(d.name) && LiteralExpr(d.value)
    ensures DimensionReferences(NormalizedDimensions(alarmDimensions)) <=
            {ToAttributeOf(LOAD_BALANCER), ToAttributeOf(HTTPS_TARGET_GROUP)}
  {
    var dimensions := NormalizedDimensions(alarmDimensions);
    forall i | 0 <= i < |dimensions|
      ensures References(dimensions[i].name) == {}
      ensures References(dimensions[i].value) <= {ToAttributeOf(LOAD_BALANCER), ToAttributeOf(HTTPS_TARGET_GROUP)}
    {
      if alarmDimensions != [] {
        assert alarmDimensions[i] in alarmDimensions;
        assert LiteralExpr(alarmDimensions[i].name) && LiteralExpr(alarmDimensions[i].value);
      }
    }
  }

  /** An alarm of literals refers to the stack, the load balancer and the target group only. */
  lemma LiteralAlarmReferences(alarm: Alarm)
    requires LiteralAlarm(alarm)
    ensures AlarmReferences(alarm) <= {To(STACK_NAME), ToAttributeOf(LOAD_BALANCER), ToAttributeOf(HTTPS_TARGET_GROUP)}
  {
    hide ItemReferences, DimensionReferences;
    assert PropertyReferences(alarm.properties) == {} by {
      forall i | 0 <= i < |alarm.properties| ensures ListReferences(alarm.properties[i]) == {} {
        assert LiteralList(alarm.properties[i]);
        LiteralItemsHaveNoReferences(alarm.properties[i].items);
      }
    }
    LiteralDimensionReferences(alarm.dimensions);
    if alarm.alarmName.Some? {
      LiteralNameReferences(alarm.alarmName.value);
    }
    assert References(NormalizeAlarmNamespace(alarm.namespace)) == {};
  }

  // The parts of the template.

  const NO_DEFAULT: Option<string> := None

  function CommonParameters(): map<string, Option<string>> {
    map[PARAMETER_SCHEME := Some("internet-facing"),
        PARAMETER_SECURITY_GROUP := NO_DEFAULT,
        PARAMETER_SUBNETS := NO_DEFAULT,
        PARAMETER_HEALTH_CHECK_PATH := Some("/kube-system/healthz"),
        PARAMETER_HEALTH_CHECK_PORT := Some("9999"),
        PARAMETER_TARGET_PORT := Some("9999"),
        PARAMETER_HEALTH_CHECK_INTERVAL := Some("10"),
        PARAMETER_HEALTH_CHECK_TIMEOUT := Some("5"),
        PARAMETER_VPC_ID := NO_DEFAULT,
        PARAMETER_SSL_POLICY := Some("ELBSecurityPolicy-2016-08"),
        PARAMETER_IP_ADDRESS_TYPE := Some("ipv4"),
        PARAMETER_TYPE := Some(LOAD_BALANCER_TYPE_APPLICATION),
        PARAMETER_HTTP2 := Some("true")]
  }

  function NewTargetGroup(spec: StackSpec, targetPortParameter: string): Resource {
    Resource("AWS::ElasticLoadBalancingV2::TargetGroup",
             {To(PARAMETER_HEALTH_CHECK_INTERVAL), To(PARAMETER_HEALTH_CHECK_PATH), To(PARAMETER_HEALTH_CHECK_PORT),
              To(targetPortParameter), To(PARAMETER_VPC_ID)}
             + if spec.loadBalancerType == LOAD_BALANCER_TYPE_NETWORK then {} else {To(PARAMETER_HEALTH_CHECK_TIMEOUT)})
  }

  function Listener(references: set<Reference>): Resource {
    Resource("AWS::ElasticLoadBalancingV2::Listener", references)
  }

  function DenyInternalTrafficRule(listenerName: string): Resource {
    Resource("AWS::ElasticLoadBalancingV2::ListenerRule", {To(listenerName)})
  }

  function LoadBalancerResource(spec: StackSpec): Resource {
    Resource("AWS::ElasticLoadBalancingV2::LoadBalancer",
             {To(PARAMETER_IP_ADDRESS_TYPE), To(PARAMETER_SCHEME), To(PARAMETER_SUBNETS), To(STACK_NAME)}
             + (if spec.loadBalancerType != LOAD_BALANCER_TYPE_NETWORK then {To(PARAMETER_SECURITY_GROUP)} else {})
             + (if SupportedType(spec.loadBalancerType) then {To(PARAMETER_TYPE)} else {}))
  }

  function HTTPTargetGroupName(spec: StackSpec): string {
    if SeparateHTTPTargets(spec) then HTTP_TARGET_GROUP else HTTPS_TARGET_GROUP
  }

  function HTTPTargetGroup(spec: StackSpec): Resources {
    if SeparateHTTPTargets(spec) then map[HTTP_TARGET_GROUP := NewTargetGroup(spec, PARAMETER_HTTP_TARGET_PORT)] else map[]
  }

  function HTTPListener(spec: StackSpec): Resources {
    var forward := Listener({To(HTTPTargetGroupName(spec)), To(LOAD_BALANCER)});
    if spec.httpDisabled || !SupportedType(spec.loadBalancerType) then map[]
    else if spec.loadBalancerType == LOAD_BALANCER_TYPE_APPLICATION && spec.httpRedirectToHTTPS then
      map[HTTP_LISTENER := Listener({To(LOAD_BALANCER)})]
    else map[HTTP_LISTENER := forward]
  }

  function HTTPDenyRule(spec: StackSpec): Resources {
    if !spec.httpDisabled && spec.loadBalancerType == LOAD_BALANCER_TYPE_APPLICATION && !spec.httpRedirectToHTTPS
       && spec.denyInternalDomains
    then map[HTTP_DENY_RULE := DenyInternalTrafficRule(HTTP_LISTENER)] else map[]
  }

  function HTTPSListener(spec: StackSpec): Resources {
    if spec.certificateARNs != map[] && SupportedType(spec.loadBalancerType) then
      map[HTTPS_LISTENER := Listener({To(HTTPS_TARGET_GROUP), To(LOAD_BALANCER), To(PARAMETER_SSL_POLICY)})]
    else map[]
  }

  function HTTPSDenyRule(spec: StackSpec): Resources {
    if spec.certificateARNs != map[] && spec.loadBalancerType == LOAD_BALANCER_TYPE_APPLICATION && spec.denyInternalDomains
    then map[HTTPS_DENY_RULE := DenyInternalTrafficRule(HTTPS_LISTENER)] else map[]
  }

  function ListenerCertificate(spec: StackSpec, digest: string): Resources {
    if spec.certificateARNs == map[] then map[]
    else map[LISTENER_CERTIFICATE + digest :=
               Resource("AWS::ElasticLoadBalancingV2::ListenerCertificate", {To(HTTPS_LISTENER)})]
  }

  function WAFResources(spec: StackSpec): Resources {
    if spec.loadBalancerType == LOAD_BALANCER_TYPE_APPLICATION && spec.wafWebACLID != "" then
      map[WAF_ASSOCIATION := Resource(
            if HasPrefix(spec.wafWebACLID, "arn:aws:wafv2:") then "AWS::WAFv2::WebACLAssociation"
            else "AWS::WAFRegional::WebACLAssociation",
            {To(LOAD_BALANCER), To(PARAMETER_WAF)})]
    else map[]
  }

  function AlarmResources(alarms: seq<Alarm>): Resources {
    if alarms == [] then map[]
    else
      var n := |alarms| - 1;
      AlarmResources(alarms[..n])[
        CLOUDWATCH_ALARM + Decimal(n) := Resource("AWS::CloudWatch::Alarm", AlarmReferences(alarms[n]))]
  }

  /** What the generator computes. */
  function Parameters(spec: StackSpec): map<string, Option<string>> {
    CommonParameters() + WAFParameters(spec) + HTTPParameters(spec)
  }

  function WAFParameters(spec: StackSpec): map<string, Option<string>> {
    if spec.wafWebACLID != "" then map[PARAMETER_WAF := NO_DEFAULT] else map[]
  }

  function HTTPParameters(spec: StackSpec): map<string, Option<string>> {
    if SeparateHTTPTargets(spec) then map[PARAMETER_HTTP_TARGET_PORT := NO_DEFAULT] else map[]
  }

  function CommonOutputs(): map<string, Reference> {
    map["LoadBalancerARN" := To(LOAD_BALANCER),
        OUTPUT_DNS_NAME := ToAttributeOf(LOAD_BALANCER),
        "TargetGroupARN" := To(HTTPS_TARGET_GROUP)]
  }

  function HTTPOutputs(spec: StackSpec): map<string, Reference> {
    if SeparateHTTPTargets(spec) then map["HTTPTargetGroupARN" := To(HTTP_TARGET_GROUP)] else map[]
  }

  function Outputs(spec: StackSpec): map<string, Reference> {
    CommonOutputs() + HTTPOutputs(spec)
  }

  function MainResources(spec: StackSpec, digest: string): Resources {
    map[HTTPS_TARGET_GROUP := NewTargetGroup(spec, PARAMETER_TARGET_PORT)]
    + HTTPTargetGroup(spec) + HTTPListener(spec) + HTTPDenyRule(spec)
    + HTTPSListener(spec) + HTTPSDenyRule(spec) + ListenerCertificate(spec, digest)
    + map[LOAD_BALANCER := LoadBalancerResource(spec)] + WAFResources(spec)
  }

  lemma OneAlarmMore(resources: Resources, alarms: seq<Alarm>, i: nat)
    requires i < |alarms|
    ensures resources + AlarmResources(alarms[..i + 1]) ==
            resources + AlarmResources(alarms[..i])
            + map[CLOUDWATCH_ALARM + Decimal(i) := Resource("AWS::CloudWatch::Alarm", AlarmReferences(alarms[i]))]
  {
    assert alarms[..i + 1][..i] == alarms[..i];
    hide AlarmReferences, Decimal;
  }

  lemma NoAlarms(resources: Resources)
    ensures resources + AlarmResources([]) == resources
  {
  }

  class Template {
    var parameters: map<string, Option<string>>
    var outputs: map<string, Reference>
    var resources: Resources

    constructor ()
      ensures parameters == map[] && outputs == map[] && resources == map[]
    {
      parameters, outputs, resources := map[], map[], map[];
    }

    method AddResource(name: string, resource: Resource)
      modifies this`resources
      ensures resources == old(resources) + map[name := resource]
    {
      resources := resources[name := resource];
    }

    /** Declares what is there whatever the listeners. */
    method Declare(spec: StackSpec)
      modifies this`parameters, this`outputs
      ensures parameters == CommonParameters() + WAFParameters(spec)
      ensures outputs == CommonOutputs()
    {
      hide CommonParameters;
      parameters := CommonParameters();
      if spec.wafWebACLID != "" {
        parameters := parameters[PARAMETER_WAF := NO_DEFAULT];
      }
      outputs := map["LoadBalancerARN" := To(LOAD_BALANCER),
                     OUTPUT_DNS_NAME := ToAttributeOf(LOAD_BALANCER),
                     "TargetGroupARN" := To(HTTPS_TARGET_GROUP)];
    }

    method DeclareHTTPTargetGroup()
      modifies this`parameters, this`outputs
      ensures parameters == old(parameters) + map[PARAMETER_HTTP_TARGET_PORT := NO_DEFAULT]
      ensures outputs == old(outputs) + map["HTTPTargetGroupARN" := To(HTTP_TARGET_GROUP)]
    {
      parameters := parameters[PARAMETER_HTTP_TARGET_PORT := NO_DEFAULT];
      outputs := outputs["HTTPTargetGroupARN" := To(HTTP_TARGET_GROUP)];
    }

    /** Uses the same target group for HTTP or creates another one. */
    method AddHTTPTargetGroup(spec: StackSpec) returns (httpTargetGroupName: string)
      requires !spec.httpDisabled
      modifies this
      ensures httpTargetGroupName == HTTPTargetGroupName(spec)
      ensures resources == old(resources) + HTTPTargetGroup(spec)
      ensures parameters == old(parameters) + HTTPParameters(spec) && outputs == old(outputs) + HTTPOutputs(spec)
    {
      hide NewTargetGroup;
      httpTargetGroupName := HTTPS_TARGET_GROUP;
      if spec.httpTargetPort != spec.targetPort {
        httpTargetGroupName := HTTP_TARGET_GROUP;
        DeclareHTTPTargetGroup();
        AddResource(httpTargetGroupName, NewTargetGroup(spec, PARAMETER_HTTP_TARGET_PORT));
      }
    }

    method AddHTTPResources(spec: StackSpec)
      modifies this
      ensures resources == old(resources) + HTTPTargetGroup(spec) + HTTPListener(spec) + HTTPDenyRule(spec)
      ensures parameters == old(parameters) + HTTPParameters(spec) && outputs == old(outputs) + HTTPOutputs(spec)
    {
      if spec.httpDisabled {
        return;
      }
      hide HTTPTargetGroup, HTTPListener, HTTPDenyRule, HTTPParameters, HTTPOutputs;
      var httpTargetGroupName := AddHTTPTargetGroup(spec);
      AddHTTPListener(spec, httpTargetGroupName);
    }

    method AddHTTPListener(spec: StackSpec, httpTargetGroupName: string)
      requires !spec.httpDisabled && httpTargetGroupName == HTTPTargetGroupName(spec)
      modifies this`resources
      ensures resources == old(resources) + HTTPListener(spec) + HTTPDenyRule(spec)
    {
      var forward := Listener({To(httpTargetGroupName), To(LOAD_BALANCER)});
      if spec.loadBalancerType == LOAD_BALANCER_TYPE_APPLICATION {
        if spec.httpRedirectToHTTPS {
          AddResource(HTTP_LISTENER, Listener({To(LOAD_BALANCER)}));
        } else {
          AddResource(HTTP_LISTENER, forward);
          if spec.denyInternalDomains {
            AddResource(HTTP_DENY_RULE, DenyInternalTrafficRule(HTTP_LISTENER));
          }
        }
      } else if spec.loadBalancerType == LOAD_BALANCER_TYPE_NETWORK {
        AddResource(HTTP_LISTENER, forward);
      }
    }

    method AddHTTPSResources(spec: StackSpec, digest: string)
      modifies this`resources
      ensures resources == old(resources) + HTTPSListener(spec) + HTTPSDenyRule(spec) + ListenerCertificate(spec, digest)
    {
      if |spec.certificateARNs| == 0 {
        return;
      }
      AddHTTPSListener(spec);
      AddResource(LISTENER_CERTIFICATE + digest,
                  Resource("AWS::ElasticLoadBalancingV2::ListenerCertificate", {To(HTTPS_LISTENER)}));
    }

    method AddHTTPSListener(spec: StackSpec)
      requires |spec.certificateARNs| != 0
      modifies this`resources
      ensures resources == old(resources) + HTTPSListener(spec) + HTTPSDenyRule(spec)
    {
      var listener := Listener({To(HTTPS_TARGET_GROUP), To(LOAD_BALANCER), To(PARAMETER_SSL_POLICY)});
      if spec.loadBalancerType == LOAD_BALANCER_TYPE_APPLICATION {
        AddResource(HTTPS_LISTENER, listener);
        if spec.denyInternalDomains {
          AddResource(HTTPS_DENY_RULE, DenyInternalTrafficRule(HTTPS_LISTENER));
        }
      } else if spec.loadBalancerType == LOAD_BALANCER_TYPE_NETWORK {
        AddResource(HTTPS_LISTENER, listener);
      }
    }

    method AddWAFAssociation(spec: StackSpec)
      modifies this`resources
      ensures resources == old(resources) + WAFResources(spec)
    {
      if spec.loadBalancerType == LOAD_BALANCER_TYPE_APPLICATION && spec.wafWebACLID != "" {
        if HasPrefix(spec.wafWebACLID, "arn:aws:wafv2:") {
          AddResource(WAF_ASSOCIATION, Resource("AWS::WAFv2::WebACLAssociation", {To(LOAD_BALANCER), To(PARAMETER_WAF)}));
        } else {
          AddResource(WAF_ASSOCIATION, Resource("AWS::WAFRegional::WebACLAssociation", {To(LOAD_BALANCER), To(PARAMETER_WAF)}));
        }
      }
    }

    method AddAlarms(alarms: seq<Alarm>)
      modifies this`resources
      ensures resources == old(resources) + AlarmResources(alarms)
    {
      hide ReferencesWith, NormalizedDimensions, Decimal, AlarmResources;
      NoAlarms(resources);
      for i := 0 to |alarms|
        invariant resources == old(resources) + AlarmResources(alarms[..i])
      {
        var dimensions := NormalizeAlarmDimensions(alarms[i].dimensions);
        AddResource(CLOUDWATCH_ALARM + Decimal(i), Resource("AWS::CloudWatch::Alarm", ReferencesWith(alarms[i], dimensions)));
        OneAlarmMore(old(resources), alarms, i);
      }
      assert alarms[..|alarms|] == alarms;
    }

    /** digest stands for the hash of the certificates. */
    method Generate(spec: StackSpec, digest: string)
      requires resources == map[]
      modifies this
      ensures parameters == Parameters(spec)
      ensures outputs == Outputs(spec)
      ensures resources == MainResources(spec, digest) + AlarmResources(spec.cwAlarms.alarms)
    {
      hide HTTPTargetGroup, HTTPListener, HTTPDenyRule, HTTPSListener, HTTPSDenyRule, ListenerCertificate, NewTargetGroup,
           LoadBalancerResource, WAFResources, AlarmResources, CommonParameters, WAFParameters, HTTPParameters, HTTPOutputs,
           CommonOutputs;
      Declare(spec);
      AddResource(HTTPS_TARGET_GROUP, NewTargetGroup(spec, PARAMETER_TARGET_PORT));
      assert resources == map[HTTPS_TARGET_GROUP := NewTargetGroup(spec, PARAMETER_TARGET_PORT)];
      AddHTTPResources(spec);
      AddHTTPSResources(spec, digest);
      AddResource(LOAD_BALANCER, LoadBalancerResource(spec));
      AddWAFAssociation(spec);
      AddAlarms(spec.cwAlarms.alarms);
    }
  }

  // References and parameters close.

  function IsDeclared(parameters: map<string, Option<string>>, resources: Resources, r: Reference): bool {
    match r
    case To(name) => name in parameters || name in resources || name in PSEUDO_PARAMETERS
    case ToAttributeOf(resource) => resource in resources
    case ToMapping(_) => false
  }

  ghost predicate ResourcesClose(
    parameters: map<string, Option<string>>, all: Resources, part: Resources)
  {
    forall name, r :: name in part && r in part[name].references ==> IsDeclared(parameters, all, r)
  }

  /** Everything that a resource or an output refers to is declared. */
  ghost predicate Closed(parameters: map<string, Option<string>>, outputs: map<string, Reference>, resources: Resources) {
    && ResourcesClose(parameters, resources, resources)
    && forall o :: o in outputs ==> IsDeclared(parameters, resources, outputs[o])
  }

  function AllResources(spec: StackSpec, digest: string): Resources {
    MainResources(spec, digest) + AlarmResources(spec.cwAlarms.alarms)
  }

  lemma DecimalIsInjective(i: nat, j: nat)
    requires Decimal(i) == Decimal(j)
    ensures i == j
  {
    DecimalRoundTrip(i);
    DecimalRoundTrip(j);
  }

  function AlarmName(i: nat): string { CLOUDWATCH_ALARM + Decimal(i) }

  lemma AlarmNamesDiffer(i: nat, j: nat)
    ensures AlarmName(i) == AlarmName(j) ==> i == j
    ensures AlarmName(i)[0] == 'C'
  {
    assert Decimal(i) == AlarmName(i)[|CLOUDWATCH_ALARM|..] && Decimal(j) == AlarmName(j)[|CLOUDWATCH_ALARM|..];
    if Decimal(i) == Decimal(j) {
      DecimalIsInjective(i, j);
    }
  }

  /** The resource of the i-th alarm. */
  ghost predicate IsAlarm(resources: Resources, name: string, alarms: seq<Alarm>, i: int) {
    0 <= i < |alarms| && name == AlarmName(i) && name in resources && resources[name].references == AlarmReferences(alarms[i])
  }

  /** There is one resource for each alarm, and no other. */
  lemma {:induction false} AlarmsByName(alarms: seq<Alarm>)
    ensures forall i :: 0 <= i < |alarms| ==> IsAlarm(AlarmResources(alarms), AlarmName(i), alarms, i)
    ensures forall name :: name in AlarmResources(alarms) ==> exists i :: IsAlarm(AlarmResources(alarms), name, alarms, i)
  {
    if alarms != [] {
      var n := |alarms| - 1;
      AlarmsByName(alarms[..n]);
      assert AlarmResources(alarms) ==
             AlarmResources(alarms[..n])[AlarmName(n) := Resource("AWS::CloudWatch::Alarm", AlarmReferences(alarms[n]))];
      AddedAlarm(AlarmResources(alarms[..n]), AlarmResources(alarms), alarms);
    }
  }

  lemma AddedAlarm(before: Resources, after: Resources, alarms: seq<Alarm>)
    requires alarms != []
    requires var n := |alarms| - 1;
             && (forall i :: 0 <= i < n ==> IsAlarm(before, AlarmName(i), alarms[..n], i))
             && (forall name :: name in before ==> exists i :: IsAlarm(before, name, alarms[..n], i))
             && after == before[AlarmName(n) := Resource("AWS::CloudWatch::Alarm", AlarmReferences(alarms[n]))]
    ensures forall i :: 0 <= i < |alarms| ==> IsAlarm(after, AlarmName(i), alarms, i)
    ensures forall name :: name in after ==> exists i :: IsAlarm(after, name, alarms, i)
  {
    hide AlarmReferences, AlarmName;
    var n := |alarms| - 1;
    forall i | 0 <= i < |alarms| ensures IsAlarm(after, AlarmName(i), alarms, i) {
      if i < n {
        assert IsAlarm(before, AlarmName(i), alarms[..n], i);
        AlarmNamesDiffer(i, n);
      }
    }
    forall name | name in after ensures exists i :: IsAlarm(after, name, alarms, i) {
      if name == AlarmName(n) {
        assert IsAlarm(after, name, alarms, n);
      } else {
        var i :| IsAlarm(before, name, alarms[..n], i);
        assert IsAlarm(after, name, alarms, i);
      }
    }
  }

  lemma AlarmNamesStart(alarms: seq<Alarm>, name: string)
    requires name in AlarmResources(alarms)
    ensures name != "" && name[0] == 'C'
  {
    AlarmsByName(alarms);
    var i :| IsAlarm(AlarmResources(alarms), name, alarms, i);
    AlarmNamesDiffer(i, i);
  }

  // The names of the resources.

  lemma MainKeys(spec: StackSpec, digest: string)
    ensures MainResources(spec, digest).Keys ==
            {HTTPS_TARGET_GROUP} + HTTPTargetGroup(spec).Keys + HTTPListener(spec).Keys + HTTPDenyRule(spec).Keys
            + HTTPSListener(spec).Keys + HTTPSDenyRule(spec).Keys + ListenerCertificate(spec, digest).Keys
            + {LOAD_BALANCER} + WAFResources(spec).Keys
  {
    hide HTTPTargetGroup, HTTPListener, HTTPDenyRule, HTTPSListener, HTTPSDenyRule, ListenerCertificate, WAFResources,
         NewTargetGroup, LoadBalancerResource;
  }

  /** The names of the resources that others refer to. */
  lemma KeyResources(spec: StackSpec, digest: string)
    ensures var all := AllResources(spec, digest);
            && LOAD_BALANCER in all && HTTPS_TARGET_GROUP in all
            && (SeparateHTTPTargets(spec) ==> HTTP_TARGET_GROUP in all)
            && (HTTPListener(spec) != map[] ==> HTTP_LISTENER in all)
            && (HTTPSListener(spec) != map[] ==> HTTPS_LISTENER in all)
  {
    MainKeys(spec, digest);
    hide MainResources, AlarmResources, ListenerCertificate, HTTPDenyRule, HTTPSDenyRule, WAFResources;
  }

  // What the template serves.

  /** The part that brings the resource of this name. */
  function PartOf(spec: StackSpec, name: string): Resources {
    if name == HTTPS_TARGET_GROUP then map[HTTPS_TARGET_GROUP := NewTargetGroup(spec, PARAMETER_TARGET_PORT)]
    else if name == HTTP_TARGET_GROUP then HTTPTargetGroup(spec)
    else if name == HTTP_LISTENER then HTTPListener(spec)
    else if name == HTTP_DENY_RULE then HTTPDenyRule(spec)
    else if name == HTTPS_LISTENER then HTTPSListener(spec)
    else if name == HTTPS_DENY_RULE then HTTPSDenyRule(spec)
    else if name == WAF_ASSOCIATION then WAFResources(spec)
    else map[]
  }

  const MAIN_NAMES: set<string> :=
    {HTTPS_TARGET_GROUP, HTTP_TARGET_GROUP, HTTP_LISTENER, HTTP_DENY_RULE, HTTPS_LISTENER, HTTPS_DENY_RULE, WAF_ASSOCIATION}

  lemma KeysOfParts(spec: StackSpec)
    ensures HTTPTargetGroup(spec).Keys <= {HTTP_TARGET_GROUP} && HTTPListener(spec).Keys <= {HTTP_LISTENER}
    ensures HTTPDenyRule(spec).Keys <= {HTTP_DENY_RULE} && HTTPSListener(spec).Keys <= {HTTPS_LISTENER}
    ensures HTTPSDenyRule(spec).Keys <= {HTTPS_DENY_RULE} && WAFResources(spec).Keys <= {WAF_ASSOCIATION}
  {
    hide NewTargetGroup, DenyInternalTrafficRule, SupportedType, SeparateHTTPTargets, HTTPTargetGroupName;
  }

  lemma KeysOfCertificateList(spec: StackSpec, digest: string)
    ensures ListenerCertificate(spec, digest).Keys <= {LISTENER_CERTIFICATE + digest}
  {
  }

  lemma NoCertificateList(digest: string, name: string)
    requires name in MAIN_NAMES
    ensures name != LISTENER_CERTIFICATE + digest
  {
    var other := LISTENER_CERTIFICATE + digest;
    assert |other| >= 24 && other[4] == 'S' && other[5] == 'L';
    assert |name| >= 24 ==> name == HTTP_DENY_RULE || name == HTTPS_DENY_RULE;
    assert HTTP_DENY_RULE[4] == 'R' && HTTPS_DENY_RULE[5] == 'R';
  }

  lemma NoAlarm(alarms: seq<Alarm>, name: string)
    requires name in MAIN_NAMES
    ensures name !in AlarmResources(alarms)
  {
    if name in AlarmResources(alarms) {
      AlarmNamesStart(alarms, name);
    }
    hide AlarmResources;
  }

  /** A name that only one of the parts has. */
  lemma InOnePart(
    a: Resources, b: Resources, c: Resources, d: Resources, e: Resources, f: Resources, g: Resources, h: Resources, i: Resources,
    j: Resources, name: string, part: Resources)
    requires a == part || name !in a
    requires b == part || name !in b
    requires c == part || name !in c
    requires d == part || name !in d
    requires e == part || name !in e
    requires f == part || name !in f
    requires name !in g && name !in h && name !in j
    requires i == part || name !in i
    requires part == a || part == b || part == c || part == d || part == e || part == f || part == i
    ensures var all := a + b + c + d + e + f + g + h + i + j;
            (name in all <==> name in part) && (name in part ==> all[name] == part[name])
  {
  }

  lemma BroughtByItsPart(spec: StackSpec, digest: string, name: string)
    requires name in MAIN_NAMES
    ensures name in AllResources(spec, digest) <==> name in PartOf(spec, name)
    ensures name in PartOf(spec, name) ==> AllResources(spec, digest)[name] == PartOf(spec, name)[name]
  {
    hide AlarmResources, HTTPTargetGroup, HTTPListener, HTTPDenyRule, HTTPSListener, HTTPSDenyRule, NewTargetGroup,
         LoadBalancerResource, ListenerCertificate, WAFResources;
    KeysOfParts(spec);
    NoCertificateList(digest, name);
    assert name !in ListenerCertificate(spec, digest) by { KeysOfCertificateList(spec, digest); }
    NoAlarm(spec.cwAlarms.alarms, name);
    InOnePart(map[HTTPS_TARGET_GROUP := NewTargetGroup(spec, PARAMETER_TARGET_PORT)], HTTPTargetGroup(spec), HTTPListener(spec),
              HTTPDenyRule(spec), HTTPSListener(spec), HTTPSDenyRule(spec), ListenerCertificate(spec, digest),
              map[LOAD_BALANCER := LoadBalancerResource(spec)], WAFResources(spec), AlarmResources(spec.cwAlarms.alarms),
              name, PartOf(spec, name));
  }

  /** The two lists agree about this name. */
  predicate Agree(a: Resources, b: Resources, name: string) {
    (name in a <==> name in b) && (name in b ==> a[name] == b[name])
  }

  lemma ListenersByName(spec: StackSpec, digest: string)
    ensures Agree(AllResources(spec, digest), HTTPListener(spec), HTTP_LISTENER)
    ensures Agree(AllResources(spec, digest), HTTPSListener(spec), HTTPS_LISTENER)
  {
    BroughtByItsPart(spec, digest, HTTP_LISTENER);
    BroughtByItsPart(spec, digest, HTTPS_LISTENER);
    hide AllResources, HTTPListener, HTTPSListener;
  }

  lemma TargetGroupsByName(spec: StackSpec, digest: string)
    ensures Agree(AllResources(spec, digest), HTTPTargetGroup(spec), HTTP_TARGET_GROUP)
    ensures Agree(AllResources(spec, digest), map[HTTPS_TARGET_GROUP := NewTargetGroup(spec, PARAMETER_TARGET_PORT)],
                  HTTPS_TARGET_GROUP)
  {
    BroughtByItsPart(spec, digest, HTTP_TARGET_GROUP);
    BroughtByItsPart(spec, digest, HTTPS_TARGET_GROUP);
    hide AllResources, HTTPTargetGroup, NewTargetGroup;
  }

  lemma RulesByName(spec: StackSpec, digest: string)
    ensures Agree(AllResources(spec, digest), HTTPDenyRule(spec), HTTP_DENY_RULE)
    ensures Agree(AllResources(spec, digest), HTTPSDenyRule(spec), HTTPS_DENY_RULE)
  {
    BroughtByItsPart(spec, digest, HTTP_DENY_RULE);
    BroughtByItsPart(spec, digest, HTTPS_DENY_RULE);
    hide AllResources, HTTPDenyRule, HTTPSDenyRule;
  }

  lemma HTTPSListenerExists(spec: StackSpec, digest: string)
    ensures HTTPS_LISTENER in AllResources(spec, digest) <==>
      spec.certificateARNs != map[] && SupportedType(spec.loadBalancerType)
  {
    hide AllResources;
    ListenersByName(spec, digest);
  }

  /** The listener sends its traffic to this target group. */
  predicate Forwards(resources: Resources, listener: string, targetGroup: string) {
    listener in resources && To(targetGroup) in resources[listener].references
  }

  /** The target group gets its traffic on the port that this parameter gives. */
  predicate ListensOn(resources: Resources, targetGroup: string, portParameter: string) {
    targetGroup in resources && To(portParameter) in resources[targetGroup].references
  }

  /** HTTPS is served exactly if there are certificates, and forwarded to the main target group. */
  lemma HTTPSIsForwarded(spec: StackSpec, digest: string, targetGroup: string)
    requires spec.loadBalancerType in {"application", "network"} && targetGroup in {"TG", "TGHTTP"}
    ensures var all := AllResources(spec, digest);
      && ListensOn(all, "TG", PARAMETER_TARGET_PORT)
      && ("HTTPSListener" in all <==> spec.certificateARNs != map[])
      && (Forwards(all, "HTTPSListener", targetGroup) <==> spec.certificateARNs != map[] && targetGroup == "TG")
  {
    hide AllResources;
    TargetGroupsByName(spec, digest);
    ListenersByName(spec, digest);
  }

  /** Plain HTTP is served exactly unless it is disabled, and forwarded to a target group of its
      own exactly if it has a port of its own, or to none where it is redirected. */
  lemma HTTPIsForwarded(spec: StackSpec, digest: string, targetGroup: string)
    requires spec.loadBalancerType in {"application", "network"} && targetGroup in {"TG", "TGHTTP"}
    ensures var all := AllResources(spec, digest);
      && ("TGHTTP" in all <==> !spec.httpDisabled && spec.httpTargetPort != spec.targetPort)
      && ("TGHTTP" in all ==> ListensOn(all, "TGHTTP", PARAMETER_HTTP_TARGET_PORT))
      && ("HTTPListener" in all <==> !spec.httpDisabled)
      && (Forwards(all, "HTTPListener", targetGroup) <==>
            && !spec.httpDisabled && !(spec.loadBalancerType == "application" && spec.httpRedirectToHTTPS)
            && (targetGroup == "TGHTTP" <==> spec.httpTargetPort != spec.targetPort))
  {
    hide AllResources;
    TargetGroupsByName(spec, digest);
    ListenersByName(spec, digest);
  }

  /** If internal domains are to be denied, every listener of an application load balancer that
      forwards has a rule for it, and no other listener has one. */
  lemma InternalTrafficIsDenied(spec: StackSpec, digest: string)
    ensures var all := AllResources(spec, digest);
      && (HTTP_DENY_RULE in all <==>
            && spec.denyInternalDomains && spec.loadBalancerType == "application"
            && (Forwards(all, "HTTPListener", "TG") || Forwards(all, "HTTPListener", "TGHTTP")))
      && (HTTPS_DENY_RULE in all <==>
            spec.denyInternalDomains && spec.loadBalancerType == "application" && Forwards(all, "HTTPSListener", "TG"))
      && (HTTP_DENY_RULE in all ==> all[HTTP_DENY_RULE] == Resource("AWS::ElasticLoadBalancingV2::ListenerRule", {To("HTTPListener")}))
      && (HTTPS_DENY_RULE in all ==> all[HTTPS_DENY_RULE] == Resource("AWS::ElasticLoadBalancingV2::ListenerRule", {To("HTTPSListener")}))
  {
    hide AllResources;
    ListenersByName(spec, digest);
    RulesByName(spec, digest);
  }

  /** A firewall is attached exactly to an application load balancer that has one. */
  lemma FirewallIsAttached(spec: StackSpec, digest: string)
    ensures var all := AllResources(spec, digest);
      && (WAF_ASSOCIATION in all <==> spec.loadBalancerType == "application" && spec.wafWebACLID != "")
      && (WAF_ASSOCIATION in all ==> {To(LOAD_BALANCER), To(PARAMETER_WAF)} <= all[WAF_ASSOCIATION].references)
  {
    BroughtByItsPart(spec, digest, WAF_ASSOCIATION);
    hide AllResources;
  }

  // What the parts refer to.

  lemma UnionCloses(parameters: map<string, Option<string>>, all: Resources, a: Resources, b: Resources)
    requires ResourcesClose(parameters, all, a) && ResourcesClose(parameters, all, b)
    ensures ResourcesClose(parameters, all, a + b)
  {
  }

  lemma CommonParametersAreDeclared(spec: StackSpec)
    ensures CommonParameters().Keys <= Parameters(spec).Keys
  {
  }

  lemma HTTPPartCloses(spec: StackSpec, digest: string)
    ensures var parameters, all := Parameters(spec), AllResources(spec, digest);
            && ResourcesClose(parameters, all, map[HTTPS_TARGET_GROUP := NewTargetGroup(spec, PARAMETER_TARGET_PORT)])
            && ResourcesClose(parameters, all, HTTPTargetGroup(spec))
  {
    KeyResources(spec, digest);
    CommonParametersAreDeclared(spec);
    hide AllResources;
  }

  lemma HTTPListenerCloses(parameters: map<string, Option<string>>, all: Resources, spec: StackSpec)
    requires LOAD_BALANCER in all && HTTPTargetGroupName(spec) in all
    ensures ResourcesClose(parameters, all, HTTPListener(spec))
  {
  }

  lemma HTTPListenerPartCloses(spec: StackSpec, digest: string)
    ensures var parameters, all := Parameters(spec), AllResources(spec, digest);
            && ResourcesClose(parameters, all, HTTPListener(spec))
            && ResourcesClose(parameters, all, HTTPDenyRule(spec))
  {
    KeyResources(spec, digest);
    var parameters, all := Parameters(spec), AllResources(spec, digest);
    hide AllResources, Parameters;
    HTTPListenerCloses(parameters, all, spec);
    if HTTPDenyRule(spec) != map[] {
      assert HTTP_LISTENER in HTTPListener(spec);
      hide HTTPListener;
      assert IsDeclared(parameters, all, To(HTTP_LISTENER));
    }
  }

  /** Only the certificate list can dangle: its listener exists only for supported types. */
  lemma HTTPSPartCloses(spec: StackSpec, digest: string)
    ensures var parameters, all := Parameters(spec), AllResources(spec, digest);
            && ResourcesClose(parameters, all, HTTPSListener(spec))
            && ResourcesClose(parameters, all, HTTPSDenyRule(spec))
            && (HTTPS_LISTENER in all ==> ResourcesClose(parameters, all, ListenerCertificate(spec, digest)))
  {
    KeyResources(spec, digest);
    CommonParametersAreDeclared(spec);
    hide AllResources;
  }

  lemma LoadBalancerPartCloses(spec: StackSpec, digest: string)
    ensures var parameters, all := Parameters(spec), AllResources(spec, digest);
            && ResourcesClose(parameters, all, map[LOAD_BALANCER := LoadBalancerResource(spec)])
            && ResourcesClose(parameters, all, WAFResources(spec))
  {
    KeyResources(spec, digest);
    CommonParametersAreDeclared(spec);
    hide AllResources;
  }

  lemma MainPartCloses(spec: StackSpec, digest: string)
    requires HTTPS_LISTENER in AllResources(spec, digest) || spec.certificateARNs == map[]
    ensures ResourcesClose(Parameters(spec), AllResources(spec, digest), MainResources(spec, digest))
  {
    HTTPPartCloses(spec, digest);
    HTTPListenerPartCloses(spec, digest);
    HTTPSPartCloses(spec, digest);
    LoadBalancerPartCloses(spec, digest);
    assert spec.certificateARNs == map[] ==> ListenerCertificate(spec, digest) == map[];
    var parameters, all := Parameters(spec), AllResources(spec, digest);
    var a := map[HTTPS_TARGET_GROUP := NewTargetGroup(spec, PARAMETER_TARGET_PORT)];
    var b, c, d := HTTPTargetGroup(spec), HTTPListener(spec), HTTPDenyRule(spec);
    var e, f, g := HTTPSListener(spec), HTTPSDenyRule(spec), ListenerCertificate(spec, digest);
    var h, i := map[LOAD_BALANCER := LoadBalancerResource(spec)], WAFResources(spec);
    assert ResourcesClose(parameters, all, g);
    assert MainResources(spec, digest) == a + b + c + d + e + f + g + h + i;
    hide ResourcesClose, MainResources, AllResources, Parameters;
    UnionCloses(parameters, all, a, b);
    UnionCloses(parameters, all, a + b, c);
    UnionCloses(parameters, all, a + b + c, d);
    UnionCloses(parameters, all, a + b + c + d, e);
    UnionCloses(parameters, all, a + b + c + d + e, f);
    UnionCloses(parameters, all, a + b + c + d + e + f, g);
    UnionCloses(parameters, all, a + b + c + d + e + f + g, h);
    UnionCloses(parameters, all, a + b + c + d + e + f + g + h, i);
  }

  lemma OutputsClose(spec: StackSpec, digest: string)
    ensures forall o :: o in Outputs(spec) ==> IsDeclared(Parameters(spec), AllResources(spec, digest), Outputs(spec)[o])
  {
    KeyResources(spec, digest);
    hide AllResources, Parameters;
  }

  /** All that the alarms themselves refer to is declared. */
  ghost predicate AlarmsClose(spec: StackSpec, digest: string) {
    forall alarm, r :: alarm in spec.cwAlarms.alarms && r in AlarmReferences(alarm) ==>
      IsDeclared(Parameters(spec), AllResources(spec, digest), r)
  }

  lemma AlarmPartCloses(spec: StackSpec, digest: string)
    ensures ResourcesClose(Parameters(spec), AllResources(spec, digest), AlarmResources(spec.cwAlarms.alarms))
            <==> AlarmsClose(spec, digest)
  {
    var alarms, resources := spec.cwAlarms.alarms, AlarmResources(spec.cwAlarms.alarms);
    AlarmsByName(alarms);
    var parameters, all := Parameters(spec), AllResources(spec, digest);
    hide AlarmReferences, Parameters, AllResources, AlarmResources, AlarmName;
    if ResourcesClose(parameters, all, resources) {
      forall alarm, r | alarm in alarms && r in AlarmReferences(alarm) ensures IsDeclared(parameters, all, r) {
        var i :| 0 <= i < |alarms| && alarms[i] == alarm;
        assert IsAlarm(resources, AlarmName(i), alarms, i);
      }
    }
    if AlarmsClose(spec, digest) {
      forall name, r | name in resources && r in resources[name].references ensures IsDeclared(parameters, all, r) {
        var i :| IsAlarm(resources, name, alarms, i);
        assert alarms[i] in alarms;
      }
    }
  }

  lemma ListenerIsNoParameter(spec: StackSpec)
    ensures HTTPS_LISTENER !in Parameters(spec) && HTTPS_LISTENER !in PSEUDO_PARAMETERS
  {
  }

  lemma LaterPartsKeep(spec: StackSpec, digest: string, name: string)
    requires name in ListenerCertificate(spec, digest)
    requires name != LOAD_BALANCER && name !in WAFResources(spec) && name !in AlarmResources(spec.cwAlarms.alarms)
    ensures name in AllResources(spec, digest)
    ensures AllResources(spec, digest)[name] == ListenerCertificate(spec, digest)[name]
  {
    hide AlarmResources, HTTPTargetGroup, HTTPListener, HTTPDenyRule, HTTPSListener, HTTPSDenyRule, NewTargetGroup,
         LoadBalancerResource, ListenerCertificate, WAFResources;
  }

  /** With certificates, but a type that is neither application nor network, the list of
      certificates refers to a listener that is missing. */
  lemma ListenerCertificateDangles(spec: StackSpec, digest: string)
    requires spec.certificateARNs != map[] && !SupportedType(spec.loadBalancerType)
    ensures !ResourcesClose(Parameters(spec), AllResources(spec, digest), AllResources(spec, digest))
  {
    var name, all := LISTENER_CERTIFICATE + digest, AllResources(spec, digest);
    HTTPSListenerExists(spec, digest);
    CertificateListRefers(spec, digest);
    ListenerIsNoParameter(spec);
    hide Parameters, AllResources;
    assert !IsDeclared(Parameters(spec), all, To(HTTPS_LISTENER));
  }

  lemma CertificateListRefers(spec: StackSpec, digest: string)
    requires spec.certificateARNs != map[] && !SupportedType(spec.loadBalancerType)
    ensures var name := LISTENER_CERTIFICATE + digest;
            name in AllResources(spec, digest) && To(HTTPS_LISTENER) in AllResources(spec, digest)[name].references
  {
    var name := LISTENER_CERTIFICATE + digest;
    if name in AlarmResources(spec.cwAlarms.alarms) {
      AlarmNamesStart(spec.cwAlarms.alarms, name);
    }
    assert name[0] == 'H' && name != LOAD_BALANCER;
    assert WAFResources(spec) == map[];
    LaterPartsKeep(spec, digest, name);
    hide AllResources, AlarmResources, WAFResources;
  }

  /** For application and network types, and generally without certificates, everything
      the template refers to is declared, as far as the alarms do not bring references of
      their own; and only then. */
  lemma TemplateCloses(spec: StackSpec, digest: string)
    ensures Closed(Parameters(spec), Outputs(spec), AllResources(spec, digest)) <==>
      (SupportedType(spec.loadBalancerType) || spec.certificateARNs == map[]) && AlarmsClose(spec, digest)
  {
    OutputsClose(spec, digest);
    HTTPSListenerExists(spec, digest);
    AlarmPartCloses(spec, digest);
    var parameters, all := Parameters(spec), AllResources(spec, digest);
    var main, alarms := MainResources(spec, digest), AlarmResources(spec.cwAlarms.alarms);
    assert all == main + alarms;
    if SupportedType(spec.loadBalancerType) || spec.certificateARNs == map[] {
      MainPartCloses(spec, digest);
      hide Parameters, AllResources, AlarmsClose, IsDeclared, MainResources, AlarmResources, Outputs, SupportedType;
      if ResourcesClose(parameters, all, alarms) {
        UnionCloses(parameters, all, main, alarms);
      }
      if ResourcesClose(parameters, all, all) {
        LastCloses(parameters, all, main, alarms);
      }
    } else {
      ListenerCertificateDangles(spec, digest);
    }
  }

  lemma LastCloses(parameters: map<string, Option<string>>, all: Resources, a: Resources, b: Resources)
    requires ResourcesClose(parameters, all, a + b)
    ensures ResourcesClose(parameters, all, b)
  {
    forall name, r | name in b && r in b[name].references ensures IsDeclared(parameters, all, r) {
      assert (a + b)[name] == b[name];
    }
  }

  /** Alarms of literals close. */
  lemma LiteralAlarmsClose(spec: StackSpec, digest: string)
    requires forall alarm :: alarm in spec.cwAlarms.alarms ==> LiteralAlarm(alarm)
    ensures AlarmsClose(spec, digest)
  {
    KeyResources(spec, digest);
    hide AllResources, AlarmReferences, Parameters;
    forall alarm | alarm in spec.cwAlarms.alarms
      ensures AlarmReferences(alarm) <= {To(STACK_NAME), ToAttributeOf(LOAD_BALANCER), ToAttributeOf(HTTPS_TARGET_GROUP)}
    {
      LiteralAlarmReferences(alarm);
    }
  }

  lemma PassedParametersAreDeclared(spec: StackSpec, i: nat)
    requires i < |WrittenParameters(spec)|
    ensures WrittenParameters(spec)[i].key in Parameters(spec)
  {
    var list := WrittenParameters(spec);
    if i < 9 {
      assert list[i] == BaseParameters(spec)[i];
      assert BaseParameters(spec)[i].key in CommonParameters();
    } else {
      assert list[i] == list[9..][i - 9];
    }
  }

  lemma ParametersWithoutDefaultArePassed(spec: StackSpec, key: string)
    requires key in Parameters(spec) && Parameters(spec)[key].None?
    ensures exists i :: 0 <= i < |WrittenParameters(spec)| && WrittenParameters(spec)[i].key == key
  {
    var list := WrittenParameters(spec);
    assert key in {PARAMETER_SECURITY_GROUP, PARAMETER_SUBNETS, PARAMETER_VPC_ID, PARAMETER_WAF, PARAMETER_HTTP_TARGET_PORT};
    assert list[1].key == PARAMETER_SECURITY_GROUP && list[2].key == PARAMETER_SUBNETS && list[3].key == PARAMETER_VPC_ID;
    if key == PARAMETER_WAF {
      assert list[9].key == PARAMETER_WAF;
    } else if key == PARAMETER_HTTP_TARGET_PORT {
      assert list[if spec.wafWebACLID != "" then 10 else 9].key == PARAMETER_HTTP_TARGET_PORT;
    }
  }

  /** Create and update pass only declared parameters, and every declared one that has no
      default (aws/cf.go). */
  lemma PassedParametersMatch(spec: StackSpec)
    ensures forall kv :: kv in WrittenParameters(spec) ==> kv.key in Parameters(spec)
    ensures forall key :: key in Parameters(spec) && Parameters(spec)[key].None? ==>
      exists kv :: kv in WrittenParameters(spec) && kv.key == key
  {
    hide Parameters;
    var list := WrittenParameters(spec);
    hide WrittenParameters;
    forall kv | kv in list ensures kv.key in Parameters(spec) {
      var i :| 0 <= i < |list| && list[i] == kv;
      PassedParametersAreDeclared(spec, i);
    }
    forall key | key in Parameters(spec) && Parameters(spec)[key].None? ensures exists kv :: kv in list && kv.key == key {
      ParametersWithoutDefaultArePassed(spec, key);
      var i :| 0 <= i < |list| && list[i].key == key;
      assert list[i] in list;
    }
  }
}
