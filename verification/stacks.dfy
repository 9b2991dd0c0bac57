/** CloudFormation stacks as the controller writes and reads them (aws/cf.go). */
module Stacks {
  import opened Text
  import opened Clock
  import opened Alarms

  const CERTIFICATE_ARN_TAG_LEGACY := "ingress:certificate-arn"
  const CERTIFICATE_ARN_TAG_PREFIX := "ingress:certificate-arn/"
  const INGRESS_OWNER_TAG := "ingress:owner"
  const CW_ALARM_CONFIG_HASH_TAG := "cloudwatch:alarm-config-hash"
  const KUBERNETES_CREATOR_TAG := "kubernetes:application"
  const CLUSTER_ID_TAG_PREFIX := "kubernetes.io/cluster/"
  const CLUSTER_ID_TAG := "ClusterID"
  const RESOURCE_LIFECYCLE_OWNED := "owned"

  const OUTPUT_DNS_NAME := "LoadBalancerDNSName"

  const PARAMETER_SCHEME := "LoadBalancerSchemeParameter"
  const PARAMETER_SECURITY_GROUP := "LoadBalancerSecurityGroupParameter"
  const PARAMETER_SUBNETS := "LoadBalancerSubnetsParameter"
  const PARAMETER_HEALTH_CHECK_PATH := "TargetGroupHealthCheckPathParameter"
  const PARAMETER_HEALTH_CHECK_PORT := "TargetGroupHealthCheckPortParameter"
  const PARAMETER_HEALTH_CHECK_INTERVAL := "TargetGroupHealthCheckIntervalParameter"
  const PARAMETER_HEALTH_CHECK_TIMEOUT := "TargetGroupHealthCheckTimeoutParameter"
  const PARAMETER_TARGET_PORT := "TargetGroupTargetPortParameter"
  const PARAMETER_HTTP_TARGET_PORT := "TargetGroupHTTPTargetPortParameter"
  const PARAMETER_VPC_ID := "TargetGroupVPCIDParameter"
  const PARAMETER_SSL_POLICY := "ListenerSslPolicyParameter"
  const PARAMETER_IP_ADDRESS_TYPE := "IpAddressType"
  const PARAMETER_TYPE := "Type"
  const PARAMETER_WAF := "LoadBalancerWAFWebACLIDParameter"
  const PARAMETER_HTTP2 := "HTTP2"

  const LOAD_BALANCER_TYPE_APPLICATION := "application"
  const LOAD_BALANCER_TYPE_NETWORK := "network"

  datatype StackStatus =
    | CreateInProgress | CreateComplete
    | UpdateInProgress | UpdateComplete | UpdateCompleteCleanupInProgress
    | RollbackInProgress | RollbackComplete
    | UpdateRollbackInProgress | UpdateRollbackComplete
    | DeleteInProgress | DeleteComplete
    | Failed
  {
    predicate Complete() { CreateComplete? || UpdateComplete? || RollbackComplete? || UpdateRollbackComplete? }
  }

  /** What the controller knows about a stack. */
  datatype Stack = Stack(
    name: string,
    status: StackStatus,
    dnsName: string,
    scheme: string,
    securityGroup: string,
    sslPolicy: string,
    ipAddressType: string,
    loadBalancerType: string,
    http2: bool,
    ownerIngress: string,
    cwAlarmConfigHash: string,
    wafWebACLID: string,
    certificateARNs: map<string, Time>)
  {
    predicate IsComplete() { status.Complete() }

    /** No certificate is required or within its deadline any more. */
    predicate ShouldDelete(now: Time) {
      forall arn :: arn in certificateARNs ==> !IsZero(certificateARNs[arn]) && certificateARNs[arn] <= now
    }
  }

  datatype HealthCheck = HealthCheck(path: string, port: nat, intervalSeconds: nat, timeoutSeconds: nat)

  datatype DenyResponse = DenyResponse(statusCode: nat, contentType: string, body: string)

  /** What a stack is created or updated from. */
  datatype StackSpec = StackSpec(
    name: string,
    scheme: string,
    ownerIngress: string,
    subnets: seq<string>,
    certificateARNs: map<string, Time>,
    securityGroupID: string,
    clusterID: string,
    vpcID: string,
    healthCheck: Option<HealthCheck>,
    targetPort: nat,
    targetHTTPS: bool,
    targetType: string,
    httpDisabled: bool,
    httpTargetPort: nat,
    controllerID: string,
    sslPolicy: string,
    ipAddressType: string,
    loadBalancerType: string,
    albLogsS3Bucket: string,
    albLogsS3Prefix: string,
    wafWebACLID: string,
    cwAlarms: AlarmList,
    httpRedirectToHTTPS: bool,
    http2: bool,
    denyInternalDomains: bool,
    denyInternalDomainsResponse: DenyResponse,
    internalDomains: seq<string>,
    tags: map<string, string>)

  datatype KeyValue = KeyValue(key: string, value: string)

  /** A stack as CloudFormation reports it. */
  datatype CfStack = CfStack(
    name: string, status: StackStatus, tags: seq<KeyValue>, parameters: seq<KeyValue>, outputs: seq<KeyValue>)

  function GetOr(m: map<string, string>, key: string): string {
    if key in m then m[key] else ""
  }

  /** The map a list of keys and values denotes: the last value of a key wins. */
  function ToMap(list: seq<KeyValue>): map<string, string> {
    if list == [] then map[]
    else ToMap(list[..|list| - 1])[list[|list| - 1].key := list[|list| - 1].value]
  }

  lemma {:induction false} ToMapConcat(a: seq<KeyValue>, b: seq<KeyValue>)
    ensures ToMap(a + b) == ToMap(a) + ToMap(b)
  {
    if b == [] {
      assert a + b == a;
    } else {
      assert (a + b)[..|a + b| - 1] == a + b[..|b| - 1];
      ToMapConcat(a, b[..|b| - 1]);
    }
  }

  method ConvertTags(tags: seq<KeyValue>) returns (r: map<string, string>)
    ensures r == ToMap(tags)
  {
    r := map[];
    for i := 0 to |tags|
      invariant r == ToMap(tags[..i])
    {
      assert tags[..i + 1][..i] == tags[..i];
      r := r[tags[i].key := tags[i].value];
    }
    assert tags[..|tags|] == tags;
  }

  method MergeTags(tags: map<string, string>, stackTags: map<string, string>) returns (merged: map<string, string>)
    ensures merged == tags + stackTags
  {
    merged := map[];
    var remaining := tags.Keys;
    while remaining != {}
      invariant remaining <= tags.Keys
      invariant merged == map k | k in tags && k !in remaining :: tags[k]
    {
      var k :| k in remaining;
      merged, remaining := merged[k := tags[k]], remaining - {k};
    }
    remaining := stackTags.Keys;
    while remaining != {}
      invariant remaining <= stackTags.Keys
      invariant merged == tags + map k | k in stackTags && k !in remaining :: stackTags[k]
    {
      var k :| k in remaining;
      merged, remaining := merged[k := stackTags[k]], remaining - {k};
    }
  }

  /** The tags that mark a stack as the controller's own. */
  function StackTags(spec: StackSpec): map<string, string> {
    map[KUBERNETES_CREATOR_TAG := spec.controllerID,
        CLUSTER_ID_TAG_PREFIX + spec.clusterID := RESOURCE_LIFECYCLE_OWNED]
  }

  predicate IsCertificateTag(key: string) {
    HasPrefix(key, CERTIFICATE_ARN_TAG_PREFIX)
  }

  function ArnOf(key: string): string {
    TrimPrefix(key, CERTIFICATE_ARN_TAG_PREFIX)
  }

  /** The tag of a certificate is the only one that names it. */
  lemma CertificateTagIsUnique(arn: string)
    ensures forall key :: key == CERTIFICATE_ARN_TAG_PREFIX + arn <==> IsCertificateTag(key) && ArnOf(key) == arn
  {
    var tag := CERTIFICATE_ARN_TAG_PREFIX + arn;
    assert tag[..|CERTIFICATE_ARN_TAG_PREFIX|] == CERTIFICATE_ARN_TAG_PREFIX;
    assert tag[|CERTIFICATE_ARN_TAG_PREFIX|..] == arn;
    forall key | IsCertificateTag(key) && ArnOf(key) == arn ensures key == tag {
      assert key == key[..|CERTIFICATE_ARN_TAG_PREFIX|] + key[|CERTIFICATE_ARN_TAG_PREFIX|..];
    }
  }

  function Lookup(m: map<string, string>, key: string): Option<string> {
    if key in m then Some(m[key]) else None
  }

  function CertificateTag(certificateARNs: map<string, Time>, key: string): Option<string> {
    if IsCertificateTag(key) && ArnOf(key) in certificateARNs then Some(Format(certificateARNs[ArnOf(key)])) else None
  }

  /** The tag that a created or updated stack carries under this key. */
  function WrittenTag(spec: StackSpec, key: string): Option<string> {
    if key == CW_ALARM_CONFIG_HASH_TAG && spec.cwAlarms.alarms != [] then Some(spec.cwAlarms.Hash())
    else if key == INGRESS_OWNER_TAG && spec.ownerIngress != "" then Some(spec.ownerIngress)
    else if CertificateTag(spec.certificateARNs, key).Some? then CertificateTag(spec.certificateARNs, key)
    else Lookup(spec.tags + StackTags(spec), key)
  }

  function FormatBool(b: bool): string {
    if b then "true" else "false"
  }

  /** Whether the stack serves plain HTTP from target groups of its own. */
  predicate SeparateHTTPTargets(spec: StackSpec) {
    !spec.httpDisabled && spec.httpTargetPort != spec.targetPort
  }

  function BaseParameters(spec: StackSpec): seq<KeyValue> {
    [KeyValue(PARAMETER_SCHEME, spec.scheme),
     KeyValue(PARAMETER_SECURITY_GROUP, spec.securityGroupID),
     KeyValue(PARAMETER_SUBNETS, JoinStrings(spec.subnets, ",")),
     KeyValue(PARAMETER_VPC_ID, spec.vpcID),
     KeyValue(PARAMETER_TARGET_PORT, Decimal(spec.targetPort)),
     KeyValue(PARAMETER_SSL_POLICY, spec.sslPolicy),
     KeyValue(PARAMETER_IP_ADDRESS_TYPE, spec.ipAddressType),
     KeyValue(PARAMETER_TYPE, spec.loadBalancerType),
     KeyValue(PARAMETER_HTTP2, FormatBool(spec.http2))]
  }

  function HealthCheckParameters(spec: StackSpec): seq<KeyValue> {
    match spec.healthCheck
    case None => []
    case Some(check) =>
      [KeyValue(PARAMETER_HEALTH_CHECK_PATH, check.path),
       KeyValue(PARAMETER_HEALTH_CHECK_PORT, Decimal(check.port)),
       KeyValue(PARAMETER_HEALTH_CHECK_INTERVAL, Decimal(check.intervalSeconds)),
       KeyValue(PARAMETER_HEALTH_CHECK_TIMEOUT, Decimal(check.timeoutSeconds))]
  }

  /** Every parameter passed when the stack is created or updated. */
  function WrittenParameters(spec: StackSpec): seq<KeyValue> {
    BaseParameters(spec)
    + (if spec.wafWebACLID != "" then [KeyValue(PARAMETER_WAF, spec.wafWebACLID)] else [])
    + (if SeparateHTTPTargets(spec) then [KeyValue(PARAMETER_HTTP_TARGET_PORT, Decimal(spec.httpTargetPort))] else [])
    + HealthCheckParameters(spec)
  }

  method CertificateTagList(certificateARNs: map<string, Time>) returns (tags: seq<KeyValue>)
    ensures forall key :: Lookup(ToMap(tags), key) == CertificateTag(certificateARNs, key)
  {
    tags := [];
    var remaining := certificateARNs.Keys;
    while remaining != {}
      invariant remaining <= certificateARNs.Keys
      invariant forall key :: Lookup(ToMap(tags), key) == CertificateTag(certificateARNs - remaining, key)
    {
      var arn :| arn in remaining;
      var tag := KeyValue(CERTIFICATE_ARN_TAG_PREFIX + arn, Format(certificateARNs[arn]));
      CertificateTagsGrow(certificateARNs, remaining, arn);
      tags := Append(tags, tag);
      remaining := remaining - {arn};
    }
    assert certificateARNs - {} == certificateARNs;
  }

  lemma CertificateTagsGrow(certificateARNs: map<string, Time>, remaining: set<string>, arn: string)
    requires arn in remaining && remaining <= certificateARNs.Keys
    ensures forall key :: CertificateTag(certificateARNs - (remaining - {arn}), key) ==
                          if key == CERTIFICATE_ARN_TAG_PREFIX + arn then Some(Format(certificateARNs[arn]))
                          else CertificateTag(certificateARNs - remaining, key)
  {
    CertificateTagIsUnique(arn);
  }

  lemma AddCertificateTags(tags: seq<KeyValue>, certificateTags: seq<KeyValue>, certificateARNs: map<string, Time>)
    requires forall key :: Lookup(ToMap(certificateTags), key) == CertificateTag(certificateARNs, key)
    ensures forall key :: Lookup(ToMap(tags + certificateTags), key) ==
                          if CertificateTag(certificateARNs, key).Some? then CertificateTag(certificateARNs, key)
                          else Lookup(ToMap(tags), key)
  {
    ToMapConcat(tags, certificateTags);
  }

  /** The tags of a create or update request. They are collected from maps, so their
      order is arbitrary, but not what they denote. */
  method StackTagList(spec: StackSpec) returns (tags: seq<KeyValue>)
    ensures forall key :: Lookup(ToMap(tags), key) == WrittenTag(spec, key)
  {
    var merged := MergeTags(spec.tags, StackTags(spec));
    tags := TagMapToTags(merged);
    var certificateTags := CertificateTagList(spec.certificateARNs);
    AddCertificateTags(tags, certificateTags, spec.certificateARNs);
    tags := tags + certificateTags;
    if spec.ownerIngress != "" {
      tags := Append(tags, KeyValue(INGRESS_OWNER_TAG, spec.ownerIngress));
    }
    if spec.cwAlarms.alarms != [] {
      tags := Append(tags, KeyValue(CW_ALARM_CONFIG_HASH_TAG, spec.cwAlarms.Hash()));
    }
  }

  method StackParameterList(spec: StackSpec) returns (parameters: seq<KeyValue>)
    ensures parameters == WrittenParameters(spec)
  {
    parameters := BaseParameters(spec);
    if spec.wafWebACLID != "" {
      parameters := parameters + [KeyValue(PARAMETER_WAF, spec.wafWebACLID)];
    }
    if SeparateHTTPTargets(spec) {
      parameters := parameters + [KeyValue(PARAMETER_HTTP_TARGET_PORT, Decimal(spec.httpTargetPort))];
    }
    if spec.healthCheck.Some? {
      parameters := parameters + HealthCheckParameters(spec);
    }
  }

  function Append(list: seq<KeyValue>, kv: KeyValue): (r: seq<KeyValue>)
    ensures ToMap(r) == ToMap(list)[kv.key := kv.value]
  {
    assert (list + [kv])[..|list|] == list;
    list + [kv]
  }

  method TagMapToTags(tags: map<string, string>) returns (r: seq<KeyValue>)
    ensures ToMap(r) == tags
  {
    r := [];
    var remaining := tags.Keys;
    while remaining != {}
      invariant remaining <= tags.Keys
      invariant ToMap(r) == map k | k in tags && k !in remaining :: tags[k]
    {
      var k :| k in remaining;
      r, remaining := Append(r, KeyValue(k, tags[k])), remaining - {k};
    }
  }

  // Reading a stack back.

  /** The certificates recorded in the tags, in the present and in the legacy format. */
  function CertificateKeys(tags: map<string, string>): set<string> {
    (set key | key in tags && IsCertificateTag(key) :: ArnOf(key))
    + if CERTIFICATE_ARN_TAG_LEGACY in tags then {tags[CERTIFICATE_ARN_TAG_LEGACY]} else {}
  }

  /** The recorded deadline; zero when the text is no timestamp. */
  function RecordedTime(value: string): Time {
    match Parse(value)
    case Some(ttl) => ttl
    case None => ZERO
  }

  function RecordedCertificates(tags: map<string, string>): map<string, Time> {
    map arn | arn in CertificateKeys(tags) ::
      if CERTIFICATE_ARN_TAG_PREFIX + arn in tags then RecordedTime(tags[CERTIFICATE_ARN_TAG_PREFIX + arn]) else ZERO
  }

  function ManagedStack(cf: CfStack): Stack {
    var tags, parameters := ToMap(cf.tags), ToMap(cf.parameters);
    Stack(
      name := cf.name,
      status := cf.status,
      dnsName := GetOr(ToMap(cf.outputs), OUTPUT_DNS_NAME),
      scheme := GetOr(parameters, PARAMETER_SCHEME),
      securityGroup := GetOr(parameters, PARAMETER_SECURITY_GROUP),
      sslPolicy := GetOr(parameters, PARAMETER_SSL_POLICY),
      ipAddressType := GetOr(parameters, PARAMETER_IP_ADDRESS_TYPE),
      loadBalancerType := GetOr(parameters, PARAMETER_TYPE),
      http2 := GetOr(parameters, PARAMETER_HTTP2) != "false",
      ownerIngress := GetOr(tags, INGRESS_OWNER_TAG),
      cwAlarmConfigHash := GetOr(tags, CW_ALARM_CONFIG_HASH_TAG),
      wafWebACLID := GetOr(parameters, PARAMETER_WAF),
      certificateARNs := RecordedCertificates(tags))
  }

  /** The stack is read off cf. The tags are read in arbitrary order, which matters only
      for a certificate that is recorded in both formats: its deadline may then be lost. */
  ghost predicate Reads(stack: Stack, cf: CfStack) {
    && stack == ManagedStack(cf).(certificateARNs := stack.certificateARNs)
    && stack.certificateARNs.Keys == CertificateKeys(ToMap(cf.tags))
    && (forall arn :: arn in stack.certificateARNs ==>
          || stack.certificateARNs[arn] == ManagedStack(cf).certificateARNs[arn]
          || (arn == GetOr(ToMap(cf.tags), CERTIFICATE_ARN_TAG_LEGACY) && IsZero(stack.certificateARNs[arn])))
    && (CERTIFICATE_ARN_TAG_LEGACY !in ToMap(cf.tags) ==> stack == ManagedStack(cf))
  }

  method MapToManagedStack(cf: CfStack) returns (stack: Stack)
    ensures Reads(stack, cf)
  {
    var tags := ConvertTags(cf.tags);
    var parameters := ConvertTags(cf.parameters);
    var certificateARNs: map<string, Time> := map[];
    var ownerIngress := "";
    var remaining := tags.Keys;
    ghost var seen: map<string, string> := map[];
    while remaining != {}
      invariant remaining <= tags.Keys
      invariant seen == tags - remaining
      invariant ReadFrom(certificateARNs, seen)
      invariant ownerIngress == GetOr(seen, INGRESS_OWNER_TAG)
    {
      var key :| key in remaining;
      var value := tags[key];
      if IsCertificateTag(key) {
        ReadCertificateTag(certificateARNs, seen, key, value);
        certificateARNs := certificateARNs[ArnOf(key) := RecordedTime(value)];
      } else {
        ReadOtherTag(certificateARNs, seen, key, value);
      }
      if key == CERTIFICATE_ARN_TAG_LEGACY {
        certificateARNs := certificateARNs[value := ZERO];
      }
      if key == INGRESS_OWNER_TAG {
        ownerIngress := value;
      }
      remaining := remaining - {key};
      seen := seen[key := value];
    }
    assert seen == tags;
    ReadFromTags(certificateARNs, tags);
    var http2 := true;
    if GetOr(parameters, PARAMETER_HTTP2) == "false" {
      http2 := false;
    }
    stack := ManagedStack(cf).(certificateARNs := certificateARNs, ownerIngress := ownerIngress, http2 := http2);
  }

  /** certificateARNs has been read from these tags, in some order. */
  ghost predicate ReadFrom(certificateARNs: map<string, Time>, tags: map<string, string>) {
    && (forall key :: key in tags && IsCertificateTag(key) ==>
          ArnOf(key) in certificateARNs && ReadAs(certificateARNs, tags, key))
    && (CERTIFICATE_ARN_TAG_LEGACY in tags ==> tags[CERTIFICATE_ARN_TAG_LEGACY] in certificateARNs)
    && (forall arn :: arn in certificateARNs ==>
          || CERTIFICATE_ARN_TAG_PREFIX + arn in tags
          || (Lookup(tags, CERTIFICATE_ARN_TAG_LEGACY) == Some(arn) && IsZero(certificateARNs[arn])))
  }

  ghost predicate ReadAs(certificateARNs: map<string, Time>, tags: map<string, string>, key: string)
    requires key in tags && ArnOf(key) in certificateARNs
  {
    || certificateARNs[ArnOf(key)] == RecordedTime(tags[key])
    || (Lookup(tags, CERTIFICATE_ARN_TAG_LEGACY) == Some(ArnOf(key)) && IsZero(certificateARNs[ArnOf(key)]))
  }

  lemma ReadCertificateTag(certificateARNs: map<string, Time>, seen: map<string, string>, key: string, value: string)
    requires ReadFrom(certificateARNs, seen) && key !in seen && IsCertificateTag(key)
    ensures key != CERTIFICATE_ARN_TAG_LEGACY
    ensures ReadFrom(certificateARNs[ArnOf(key) := RecordedTime(value)], seen[key := value])
  {
    CertificateTagIsUnique(ArnOf(key));
    forall other | other in seen && IsCertificateTag(other) ensures ArnOf(other) != ArnOf(key) {
    }
  }

  lemma ReadOtherTag(certificateARNs: map<string, Time>, seen: map<string, string>, key: string, value: string)
    requires ReadFrom(certificateARNs, seen) && key !in seen && !IsCertificateTag(key)
    ensures ReadFrom(if key == CERTIFICATE_ARN_TAG_LEGACY then certificateARNs[value := ZERO] else certificateARNs,
                     seen[key := value])
  {
  }

  lemma ReadFromTags(certificateARNs: map<string, Time>, tags: map<string, string>)
    requires ReadFrom(certificateARNs, tags)
    ensures certificateARNs.Keys == CertificateKeys(tags)
    ensures forall arn :: arn in certificateARNs ==>
      || certificateARNs[arn] == RecordedCertificates(tags)[arn]
      || (arn == GetOr(tags, CERTIFICATE_ARN_TAG_LEGACY) && IsZero(certificateARNs[arn]))
    ensures CERTIFICATE_ARN_TAG_LEGACY !in tags ==> certificateARNs == RecordedCertificates(tags)
  {
    forall arn | arn in certificateARNs
      ensures arn in CertificateKeys(tags)
      ensures || certificateARNs[arn] == RecordedCertificates(tags)[arn]
              || (arn == GetOr(tags, CERTIFICATE_ARN_TAG_LEGACY) && IsZero(certificateARNs[arn]))
    {
      CertificateTagIsUnique(arn);
      if CERTIFICATE_ARN_TAG_PREFIX + arn in tags {
        assert ReadAs(certificateARNs, tags, CERTIFICATE_ARN_TAG_PREFIX + arn);
      }
    }
  }

  /** A certificate is recorded exactly if a tag of the present format names it or it is the
      value of the old one; a deadline is only there as a timestamp in the present format. */
  lemma RecordedTimes(tags: map<string, string>, arn: string)
    ensures var recorded, tag := RecordedCertificates(tags), CERTIFICATE_ARN_TAG_PREFIX + arn;
            && (arn in recorded <==> tag in tags || Lookup(tags, CERTIFICATE_ARN_TAG_LEGACY) == Some(arn))
            && (arn in recorded ==>
                  recorded[arn] == if tag in tags && Parse(tags[tag]).Some? then Parse(tags[tag]).value else 0)
  {
    CertificateTagIsUnique(arn);
  }

  predicate IsManagedStack(cfTags: seq<KeyValue>, clusterID: string, controllerID: string) {
    var tags := ToMap(cfTags);
    GetOr(tags, KUBERNETES_CREATOR_TAG) == controllerID
    && (GetOr(tags, CLUSTER_ID_TAG_PREFIX + clusterID) == RESOURCE_LIFECYCLE_OWNED
        || GetOr(tags, CLUSTER_ID_TAG) == clusterID)
  }

  // What is written can be read back.

  /** Additional tags that leave alone the tags in which the controller keeps its state. */
  predicate AvoidsReservedTags(tags: map<string, string>) {
    && CERTIFICATE_ARN_TAG_LEGACY !in tags
    && INGRESS_OWNER_TAG !in tags
    && CW_ALARM_CONFIG_HASH_TAG !in tags
    && forall key :: key in tags ==> !IsCertificateTag(key)
  }

  /** The stack carries the tags and parameters of a create or update request for spec. */
  ghost predicate WrittenFrom(cf: CfStack, spec: StackSpec) {
    && cf.parameters == WrittenParameters(spec)
    && forall key :: Lookup(ToMap(cf.tags), key) == WrittenTag(spec, key)
  }

  lemma {:induction false} LastValueWins(list: seq<KeyValue>, i: nat)
    requires i < |list| && forall j :: i < j < |list| ==> list[j].key != list[i].key
    ensures Lookup(ToMap(list), list[i].key) == Some(list[i].value)
  {
    if i < |list| - 1 {
      LastValueWins(list[..|list| - 1], i);
    }
  }

  lemma {:induction false} AbsentKey(list: seq<KeyValue>, key: string)
    requires forall j :: 0 <= j < |list| ==> list[j].key != key
    ensures key !in ToMap(list)
  {
    if list != [] {
      AbsentKey(list[..|list| - 1], key);
    }
  }

  /** The parameters after the nine that are always passed. */
  function MoreParameters(spec: StackSpec): seq<KeyValue> {
    WrittenParameters(spec)[9..]
  }

  lemma BaseKeysAreDistinct(spec: StackSpec)
    ensures var base := BaseParameters(spec);
            && (forall i, j :: 0 <= i < j < |base| ==> base[i].key != base[j].key)
            && (forall i :: 0 <= i < |base| ==> base[i].key != PARAMETER_WAF)
  {
  }

  lemma MoreKeysAreNew(spec: StackSpec, j: nat)
    requires j < |MoreParameters(spec)|
    ensures forall i :: 0 <= i < 9 ==> BaseParameters(spec)[i].key != MoreParameters(spec)[j].key
    ensures MoreParameters(spec)[j].key == PARAMETER_WAF <==> spec.wafWebACLID != "" && j == 0
  {
  }

  lemma ParametersAreDistinct(spec: StackSpec)
    ensures var list := WrittenParameters(spec);
            && |list| >= 9
            && list[..9] == BaseParameters(spec)
            && (forall i, j :: 0 <= i < 9 && i < j < |list| ==> list[i].key != list[j].key)
            && (spec.wafWebACLID != "" ==> |list| > 9 && list[9] == KeyValue(PARAMETER_WAF, spec.wafWebACLID))
            && (forall j :: 0 <= j < |list| && (spec.wafWebACLID != "" ==> j != 9) ==> list[j].key != PARAMETER_WAF)
  {
    var list := WrittenParameters(spec);
    assert list[..9] == BaseParameters(spec);
    assert spec.wafWebACLID != "" ==> list[9] == KeyValue(PARAMETER_WAF, spec.wafWebACLID);
    hide WrittenParameters, BaseParameters;
    BaseKeysAreDistinct(spec);
    forall j | 9 <= j < |list|
      ensures forall i :: 0 <= i < 9 ==> list[i].key != list[j].key
      ensures list[j].key == PARAMETER_WAF <==> spec.wafWebACLID != "" && j == 9
    {
      MoreKeysAreNew(spec, j - 9);
      assert list[j] == list[9..][j - 9];
      assert forall i :: 0 <= i < 9 ==> list[i] == list[..9][i];
    }
    assert forall i :: 0 <= i < 9 ==> list[i] == list[..9][i];
  }

  function TruncateAll(certificateARNs: map<string, Time>): map<string, Time> {
    map arn | arn in certificateARNs :: Truncate(certificateARNs[arn])
  }

  /** The controller's own marks are none of the tags in which it keeps state. */
  lemma MarksAreNoState(spec: StackSpec, key: string)
    requires key in StackTags(spec)
    ensures !IsCertificateTag(key)
    ensures key != CERTIFICATE_ARN_TAG_LEGACY && key != INGRESS_OWNER_TAG && key != CW_ALARM_CONFIG_HASH_TAG
  {
    assert key[0] == 'k' && CERTIFICATE_ARN_TAG_PREFIX[0] == 'i';
    assert |CERTIFICATE_ARN_TAG_PREFIX| <= |key| ==> key[..|CERTIFICATE_ARN_TAG_PREFIX|][0] == key[0];
  }

  lemma StateTagsDiffer()
    ensures !IsCertificateTag(INGRESS_OWNER_TAG) && !IsCertificateTag(CW_ALARM_CONFIG_HASH_TAG)
    ensures INGRESS_OWNER_TAG != CW_ALARM_CONFIG_HASH_TAG
  {
    assert |INGRESS_OWNER_TAG| < |CERTIFICATE_ARN_TAG_PREFIX|;
    assert CW_ALARM_CONFIG_HASH_TAG[0] == 'c' && CERTIFICATE_ARN_TAG_PREFIX[0] == 'i' && INGRESS_OWNER_TAG[0] == 'i';
    assert CW_ALARM_CONFIG_HASH_TAG[..|CERTIFICATE_ARN_TAG_PREFIX|][0] == 'c';
  }

  lemma RecordedCertificatesRoundTrip(cf: CfStack, spec: StackSpec)
    requires WrittenFrom(cf, spec) && AvoidsReservedTags(spec.tags)
    ensures RecordedCertificates(ToMap(cf.tags)) == TruncateAll(spec.certificateARNs)
    ensures CERTIFICATE_ARN_TAG_LEGACY !in ToMap(cf.tags)
  {
    var tags := ToMap(cf.tags);
    assert CERTIFICATE_ARN_TAG_LEGACY !in tags by {
      assert Lookup(tags, CERTIFICATE_ARN_TAG_LEGACY) == WrittenTag(spec, CERTIFICATE_ARN_TAG_LEGACY);
      if CERTIFICATE_ARN_TAG_LEGACY in StackTags(spec) {
        MarksAreNoState(spec, CERTIFICATE_ARN_TAG_LEGACY);
      }
    }
    forall arn
      ensures arn in CertificateKeys(tags) <==> arn in spec.certificateARNs
      ensures arn in spec.certificateARNs ==>
        RecordedCertificates(tags)[arn] == Truncate(spec.certificateARNs[arn])
    {
      var key := CERTIFICATE_ARN_TAG_PREFIX + arn;
      CertificateTagIsUnique(arn);
      StateTagsDiffer();
      assert Lookup(tags, key) == WrittenTag(spec, key);
      if key in StackTags(spec) {
        MarksAreNoState(spec, key);
      }
      assert key in tags <==> arn in spec.certificateARNs;
      if arn in spec.certificateARNs {
        FormatKeepsSeconds(spec.certificateARNs[arn]);
      }
    }
  }

  /** Reading back what create or update wrote yields the same stack state, with the
      certificates' deadlines cut to whole seconds. */
  lemma StackStateRoundTrip(cf: CfStack, spec: StackSpec)
    requires WrittenFrom(cf, spec) && AvoidsReservedTags(spec.tags)
    ensures ManagedStack(cf) == Stack(
      cf.name, cf.status, GetOr(ToMap(cf.outputs), OUTPUT_DNS_NAME), spec.scheme, spec.securityGroupID, spec.sslPolicy, spec.ipAddressType, spec.loadBalancerType,
      spec.http2, spec.ownerIngress, spec.cwAlarms.Hash(), spec.wafWebACLID, TruncateAll(spec.certificateARNs))
  {
    RecordedCertificatesRoundTrip(cf, spec);
    ParameterRoundTrip(spec);
    TagRoundTrip(cf, spec);
  }

  lemma TagRoundTrip(cf: CfStack, spec: StackSpec)
    requires WrittenFrom(cf, spec) && AvoidsReservedTags(spec.tags)
    ensures GetOr(ToMap(cf.tags), INGRESS_OWNER_TAG) == spec.ownerIngress
    ensures GetOr(ToMap(cf.tags), CW_ALARM_CONFIG_HASH_TAG) == spec.cwAlarms.Hash()
  {
    StateTagsDiffer();
    if INGRESS_OWNER_TAG in StackTags(spec) {
      MarksAreNoState(spec, INGRESS_OWNER_TAG);
    }
    if CW_ALARM_CONFIG_HASH_TAG in StackTags(spec) {
      MarksAreNoState(spec, CW_ALARM_CONFIG_HASH_TAG);
    }
    assert Lookup(ToMap(cf.tags), INGRESS_OWNER_TAG) == WrittenTag(spec, INGRESS_OWNER_TAG);
    assert Lookup(ToMap(cf.tags), CW_ALARM_CONFIG_HASH_TAG) == WrittenTag(spec, CW_ALARM_CONFIG_HASH_TAG);
  }

  lemma ParameterRoundTrip(spec: StackSpec)
    ensures var parameters := ToMap(WrittenParameters(spec));
      && GetOr(parameters, PARAMETER_SCHEME) == spec.scheme
      && GetOr(parameters, PARAMETER_SECURITY_GROUP) == spec.securityGroupID
      && GetOr(parameters, PARAMETER_SSL_POLICY) == spec.sslPolicy
      && GetOr(parameters, PARAMETER_IP_ADDRESS_TYPE) == spec.ipAddressType
      && GetOr(parameters, PARAMETER_TYPE) == spec.loadBalancerType
      && (GetOr(parameters, PARAMETER_HTTP2) != "false") == spec.http2
      && GetOr(parameters, PARAMETER_WAF) == spec.wafWebACLID
      && GetOr(parameters, PARAMETER_VPC_ID) == spec.vpcID
      && ParseDecimal(GetOr(parameters, PARAMETER_TARGET_PORT)) == Some(spec.targetPort)
  {
    var list := WrittenParameters(spec);
    ParametersAreDistinct(spec);
    forall i | 0 <= i < 9 ensures Lookup(ToMap(list), BaseParameters(spec)[i].key) == Some(BaseParameters(spec)[i].value) {
      assert list[i] == list[..9][i];
      LastValueWins(list, i);
    }
    var base := BaseParameters(spec);
    DecimalRoundTrip(spec.targetPort);
    assert base[3].key == PARAMETER_VPC_ID && base[4].key == PARAMETER_TARGET_PORT;
    assert base[0].key == PARAMETER_SCHEME && base[1].key == PARAMETER_SECURITY_GROUP && base[5].key == PARAMETER_SSL_POLICY;
    assert base[6].key == PARAMETER_IP_ADDRESS_TYPE && base[7].key == PARAMETER_TYPE && base[8].key == PARAMETER_HTTP2;
    if spec.wafWebACLID != "" {
      LastValueWins(list, 9);
    } else {
      AbsentKey(list, PARAMETER_WAF);
    }
  }

  /** The subnets are read back by splitting, if there are any and none has a comma in it. */
  lemma SubnetsRoundTrip(spec: StackSpec)
    requires spec.subnets != [] && forall subnet :: subnet in spec.subnets ==> ',' !in subnet
    ensures Split(GetOr(ToMap(WrittenParameters(spec)), PARAMETER_SUBNETS), ',') == spec.subnets
  {
    var list := WrittenParameters(spec);
    ParametersAreDistinct(spec);
    assert list[2] == list[..9][2] && BaseParameters(spec)[2] == KeyValue(PARAMETER_SUBNETS, JoinStrings(spec.subnets, ","));
    hide WrittenParameters;
    LastValueWins(list, 2);
    forall subnet | subnet in spec.subnets ensures Lacks(subnet, ',') {
    }
    SplitJoined(spec.subnets);
  }

  lemma LastPartWins(a: seq<KeyValue>, b: seq<KeyValue>, key: string)
    ensures Lookup(ToMap(a + b), key) == if key in ToMap(b) then Some(ToMap(b)[key]) else Lookup(ToMap(a), key)
  {
    ToMapConcat(a, b);
  }

  lemma HealthCheckRoundTrip(spec: StackSpec)
    requires spec.healthCheck.Some?
    ensures var parameters, check := ToMap(WrittenParameters(spec)), spec.healthCheck.value;
      && GetOr(parameters, PARAMETER_HEALTH_CHECK_PATH) == check.path
      && ParseDecimal(GetOr(parameters, PARAMETER_HEALTH_CHECK_PORT)) == Some(check.port)
      && ParseDecimal(GetOr(parameters, PARAMETER_HEALTH_CHECK_INTERVAL)) == Some(check.intervalSeconds)
      && ParseDecimal(GetOr(parameters, PARAMETER_HEALTH_CHECK_TIMEOUT)) == Some(check.timeoutSeconds)
  {
    var list, last := WrittenParameters(spec), HealthCheckParameters(spec);
    var check, front := spec.healthCheck.value, list[..|list| - 4];
    assert list == front + last;
    assert last[0] == KeyValue(PARAMETER_HEALTH_CHECK_PATH, check.path);
    assert last[1] == KeyValue(PARAMETER_HEALTH_CHECK_PORT, Decimal(check.port));
    assert last[2] == KeyValue(PARAMETER_HEALTH_CHECK_INTERVAL, Decimal(check.intervalSeconds));
    assert last[3] == KeyValue(PARAMETER_HEALTH_CHECK_TIMEOUT, Decimal(check.timeoutSeconds));
    hide WrittenParameters, HealthCheckParameters, ToMap;
    forall i | 0 <= i < 4 ensures Lookup(ToMap(list), last[i].key) == Some(last[i].value) {
      LastValueWins(last, i);
      LastPartWins(front, last, last[i].key);
    }
    DecimalRoundTrip(check.port);
    DecimalRoundTrip(check.intervalSeconds);
    DecimalRoundTrip(check.timeoutSeconds);
  }

  /** The port for plain HTTP is passed exactly if HTTP is served, and from a port of its own. */
  lemma HTTPPortRoundTrip(spec: StackSpec)
    ensures var parameters := ToMap(WrittenParameters(spec));
      && (PARAMETER_HTTP_TARGET_PORT in parameters <==> !spec.httpDisabled && spec.httpTargetPort != spec.targetPort)
      && (PARAMETER_HTTP_TARGET_PORT in parameters ==>
            ParseDecimal(parameters[PARAMETER_HTTP_TARGET_PORT]) == Some(spec.httpTargetPort))
  {
    var key := PARAMETER_HTTP_TARGET_PORT;
    var first := BaseParameters(spec) + if spec.wafWebACLID != "" then [KeyValue(PARAMETER_WAF, spec.wafWebACLID)] else [];
    var port := if SeparateHTTPTargets(spec) then [KeyValue(key, Decimal(spec.httpTargetPort))] else [];
    assert WrittenParameters(spec) == first + port + HealthCheckParameters(spec);
    AbsentKey(first, key);
    AbsentKey(HealthCheckParameters(spec), key);
    hide WrittenParameters, BaseParameters, HealthCheckParameters;
    LastPartWins(first + port, HealthCheckParameters(spec), key);
    LastPartWins(first, port, key);
    if port != [] {
      LastValueWins(port, 0);
      DecimalRoundTrip(spec.httpTargetPort);
    }
  }

  /** A written stack is recognised as managed, whatever additional tags are configured. */
  lemma WrittenStackIsManaged(cf: CfStack, spec: StackSpec)
    requires WrittenFrom(cf, spec)
    ensures IsManagedStack(cf.tags, spec.clusterID, spec.controllerID)
  {
    var creator, cluster := KUBERNETES_CREATOR_TAG, CLUSTER_ID_TAG_PREFIX + spec.clusterID;
    MarksAreNoState(spec, creator);
    MarksAreNoState(spec, cluster);
    assert creator != cluster by { assert creator[10] == ':' && cluster[10] == '.'; }
    assert Lookup(ToMap(cf.tags), creator) == WrittenTag(spec, creator);
    assert Lookup(ToMap(cf.tags), cluster) == WrittenTag(spec, cluster);
  }

  /** Additional tags are written, except under the keys that the controller uses itself. */
  lemma AdditionalTagsAreWritten(cf: CfStack, spec: StackSpec, key: string)
    requires WrittenFrom(cf, spec) && AvoidsReservedTags(spec.tags) && key in spec.tags
    requires key != KUBERNETES_CREATOR_TAG && key != CLUSTER_ID_TAG_PREFIX + spec.clusterID
    ensures Lookup(ToMap(cf.tags), key) == Some(spec.tags[key])
  {
    assert Lookup(ToMap(cf.tags), key) == WrittenTag(spec, key);
  }

  /** Additional tags that are not taken for the mark of a cluster. */
  predicate NoClusterMarks(tags: map<string, string>) {
    CLUSTER_ID_TAG !in tags && forall key :: key in tags ==> !HasPrefix(key, CLUSTER_ID_TAG_PREFIX)
  }

  lemma ClusterTagIsUnique(a: string, b: string)
    ensures CLUSTER_ID_TAG_PREFIX + a == CLUSTER_ID_TAG_PREFIX + b <==> a == b
    ensures HasPrefix(CLUSTER_ID_TAG_PREFIX + a, CLUSTER_ID_TAG_PREFIX)
  {
    assert (CLUSTER_ID_TAG_PREFIX + a)[|CLUSTER_ID_TAG_PREFIX|..] == a;
    assert (CLUSTER_ID_TAG_PREFIX + b)[|CLUSTER_ID_TAG_PREFIX|..] == b;
    assert (CLUSTER_ID_TAG_PREFIX + a)[..|CLUSTER_ID_TAG_PREFIX|] == CLUSTER_ID_TAG_PREFIX;
  }

  /** The tags by which a stack is recognised are none of those in which state is kept. */
  lemma ClusterTagsAreNoState(clusterID: string)
    ensures var key := CLUSTER_ID_TAG_PREFIX + clusterID;
            && !IsCertificateTag(key) && key != INGRESS_OWNER_TAG && key != CW_ALARM_CONFIG_HASH_TAG
            && key != KUBERNETES_CREATOR_TAG && key != CLUSTER_ID_TAG
    ensures !IsCertificateTag(CLUSTER_ID_TAG)
  {
    var key := CLUSTER_ID_TAG_PREFIX + clusterID;
    assert key[0] == 'k' && key[10] == '.' && KUBERNETES_CREATOR_TAG[10] == ':';
    assert CERTIFICATE_ARN_TAG_PREFIX[0] == 'i' && CLUSTER_ID_TAG[0] == 'C' && CW_ALARM_CONFIG_HASH_TAG[0] == 'c';
    assert |CERTIFICATE_ARN_TAG_PREFIX| <= |key| ==> key[..|CERTIFICATE_ARN_TAG_PREFIX|][0] == 'k';
  }

  lemma CreatorRoundTrip(cf: CfStack, spec: StackSpec)
    requires WrittenFrom(cf, spec)
    ensures GetOr(ToMap(cf.tags), KUBERNETES_CREATOR_TAG) == spec.controllerID
  {
    MarksAreNoState(spec, KUBERNETES_CREATOR_TAG);
    ClusterTagsAreNoState(spec.clusterID);
    assert Lookup(ToMap(cf.tags), KUBERNETES_CREATOR_TAG) == WrittenTag(spec, KUBERNETES_CREATOR_TAG);
  }

  lemma ClusterRoundTrip(cf: CfStack, spec: StackSpec, clusterID: string)
    requires WrittenFrom(cf, spec) && NoClusterMarks(spec.tags)
    ensures GetOr(ToMap(cf.tags), CLUSTER_ID_TAG_PREFIX + clusterID) ==
            if clusterID == spec.clusterID then RESOURCE_LIFECYCLE_OWNED else ""
    ensures GetOr(ToMap(cf.tags), CLUSTER_ID_TAG) == ""
  {
    var key := CLUSTER_ID_TAG_PREFIX + clusterID;
    ClusterTagIsUnique(clusterID, spec.clusterID);
    ClusterTagsAreNoState(clusterID);
    ClusterTagsAreNoState(spec.clusterID);
    assert Lookup(ToMap(cf.tags), key) == WrittenTag(spec, key);
    assert Lookup(ToMap(cf.tags), CLUSTER_ID_TAG) == WrittenTag(spec, CLUSTER_ID_TAG);
  }

  /** A written stack is managed by no controller but its own: never by one with another
      name, and, unless additional tags name clusters, by one with the same name exactly in
      the same cluster or if it has no cluster ID at all. */
  lemma OnlyOwnStacksAreManaged(cf: CfStack, spec: StackSpec, clusterID: string, controllerID: string)
    requires WrittenFrom(cf, spec)
    ensures IsManagedStack(cf.tags, clusterID, controllerID) ==> spec.controllerID == controllerID
    ensures NoClusterMarks(spec.tags) ==>
      (IsManagedStack(cf.tags, clusterID, controllerID) <==>
         spec.controllerID == controllerID && (spec.clusterID == clusterID || clusterID == ""))
  {
    CreatorRoundTrip(cf, spec);
    if NoClusterMarks(spec.tags) {
      ClusterRoundTrip(cf, spec, clusterID);
    }
  }
}
