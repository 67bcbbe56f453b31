/**
  The normalisation deploy.go applies before it compares a configured
  definition with the deployed one (sortServiceDefinitionForDiff and
  sortTaskDefinitionForDiff in ecs_util.go): the unordered lists are sorted
  by their string rendering, and the defaults ECS fills in are filled in.
  diffService and diffTaskDefinition then compare the projections of the two
  normalised values onto the update and register inputs; the textual diff of
  their JSON is not modelled, only the values it is computed from.
 */
module Normalize {
  import opened Wrappers
  import opened Text
  import opened Sorting
  import opened Ecs
  import opened EcsUtil

  // ---------------------------------------------------------------------------
  // toNumberCPU, toNumberMemory

  /**
    The unit dispatch of toNumberCPU and toNumberMemory: when the unit occurs
    at `at > 0`, the text before it (without surrounding blanks) is read as a
    number of units and written as that many 1024ths; None when it does not
    read as a number. Otherwise the value is kept.
   */
  function ScaleUnit(v: string, at: Option<nat>, f: Foreign): (r: Option<string>)
    requires at.Some? ==> at.value <= |v|
  {
    if at.Some? && at.value > 0 then
      match f.kibi(Trim(v[..at.value], ' '))
      case None => None
      case Some(n) => Some(IntToString(n))
    else Some(v)
  }

  /** toNumberCPU: "0.25 vCPU" and the like become a number of CPU units; "vcpu" is matched in any case. */
  function ToNumberCPU(cpu: string, f: Foreign): (r: Option<string>)
    ensures r != Some(cpu) ==> exists i: nat :: 0 < i && OccursAt(ToLower(cpu), "vcpu", i)
    ensures (forall i: nat :: 0 < i ==> !OccursAt(ToLower(cpu), "vcpu", i)) ==> r == Some(cpu)
    ensures r.None? ==> Index(ToLower(cpu), "vcpu").Some? && f.kibi(Trim(cpu[..Index(ToLower(cpu), "vcpu").value], ' ')).None?
    ensures var at := Index(ToLower(cpu), "vcpu");
      at.Some? && at.value > 0 ==>
        && (r.None? <==> f.kibi(Trim(cpu[..at.value], ' ')).None?)
        && (r.Some? ==> r.value == IntToString(f.kibi(Trim(cpu[..at.value], ' ')).value))
  {
    ScaleUnit(cpu, Index(ToLower(cpu), "vcpu"), f)
  }

  /** toNumberMemory: "2GB" and the like become a number of MiB; "GB" is matched case-sensitively. */
  function ToNumberMemory(memory: string, f: Foreign): (r: Option<string>)
    ensures r != Some(memory) ==> exists i: nat :: 0 < i && OccursAt(memory, "GB", i)
    ensures (forall i: nat :: 0 < i ==> !OccursAt(memory, "GB", i)) ==> r == Some(memory)
    ensures r.None? ==> Index(memory, "GB").Some? && f.kibi(Trim(memory[..Index(memory, "GB").value], ' ')).None?
    ensures var at := Index(memory, "GB");
      at.Some? && at.value > 0 ==>
        && (r.None? <==> f.kibi(Trim(memory[..at.value], ' ')).None?)
        && (r.Some? ==> r.value == IntToString(f.kibi(Trim(memory[..at.value], ' ')).value))
  {
    ScaleUnit(memory, Index(memory, "GB"), f)
  }

  /** A value that begins with its unit is kept as it is: the dispatch asks for an index above 0. */
  lemma UnitAtStartIsKept(cpu: string, memory: string, f: Foreign)
    requires OccursAt(ToLower(cpu), "vcpu", 0) && OccursAt(memory, "GB", 0)
    ensures ToNumberCPU(cpu, f) == Some(cpu)
    ensures ToNumberMemory(memory, f) == Some(memory)
  {
  }

  /** A number written by %d has only digits and a leading minus sign. */
  lemma NumberChars(n: int)
    ensures forall i :: 0 <= i < |IntToString(n)| ==> IsDigit(IntToString(n)[i]) || IntToString(n)[i] == '-'
  {
    if n < 0 {
      var s := IntToString(n);
      forall i | 0 < i < |s| ensures IsDigit(s[i]) {
        assert s[i] == NatToString(-n)[i - 1];
      }
    }
  }

  lemma OccursAtHead(s: string, pat: string, j: nat)
    requires |pat| > 0
    ensures OccursAt(s, pat, j) ==> j < |s| && s[j] == pat[0]
  {
    if OccursAt(s, pat, j) {
      assert s[j..j + |pat|][0] == s[j];
    }
  }

  lemma NoLetterInNumber(n: int, pat: string, j: nat)
    requires |pat| > 0 && !IsDigit(pat[0]) && pat[0] != '-'
    ensures !OccursAt(ToLower(IntToString(n)), pat, j)
    ensures !OccursAt(IntToString(n), pat, j)
  {
    var s := IntToString(n);
    NumberChars(n);
    if j < |s| {
      assert ToLower(s)[j] == s[j];
      OccursAtHead(ToLower(s), pat, j);
      OccursAtHead(s, pat, j);
    }
  }

  /** A converted value has no unit left, so converting again keeps it: the conversions are idempotent. */
  lemma ToNumberIdempotent(cpu: string, memory: string, f: Foreign)
    ensures ToNumberCPU(cpu, f).Some? ==> ToNumberCPU(ToNumberCPU(cpu, f).value, f) == ToNumberCPU(cpu, f)
    ensures ToNumberMemory(memory, f).Some? ==> ToNumberMemory(ToNumberMemory(memory, f).value, f) == ToNumberMemory(memory, f)
  {
    var c := ToNumberCPU(cpu, f);
    if c.Some? && c.value != cpu {
      var n :| f.kibi(Trim(cpu[..Index(ToLower(cpu), "vcpu").value], ' ')) == Some(n) && c.value == IntToString(n);
      forall j: nat ensures !OccursAt(ToLower(c.value), "vcpu", j) {
        NoLetterInNumber(n, "vcpu", j);
      }
    }
    var m := ToNumberMemory(memory, f);
    if m.Some? && m.value != memory {
      var n :| f.kibi(Trim(memory[..Index(memory, "GB").value], ' ')) == Some(n) && m.value == IntToString(n);
      forall j: nat ensures !OccursAt(m.value, "GB", j) {
        NoLetterInNumber(n, "GB", j);
      }
    }
  }

  // ---------------------------------------------------------------------------
  // Services (sortServiceDefinitionForDiff)

  /** The identity key: sortSlicesInDefinition compares string elements by themselves. */
  function Self(s: string): string { s }

  function NormalizeAwsVpc(ac: AwsVpcConfiguration): AwsVpcConfiguration {
    AwsVpcConfiguration(
      if ac.assignPublicIp.None? then Some("DISABLED") else ac.assignPublicIp,
      SortByKey(ac.securityGroups, Self),
      SortByKey(ac.subnets, Self))
  }

  function NormalizeNetwork(nc: Option<NetworkConfiguration>): Option<NetworkConfiguration> {
    match nc
    case None => None
    case Some(c) =>
      match c.awsvpcConfiguration
      case None => nc
      case Some(ac) => Some(NetworkConfiguration(Some(NormalizeAwsVpc(ac))))
  }

  /**
    sortServiceDefinitionForDiff. ecs.Service has no RequiresCompatibilities
    field, so of the three names given to sortSlicesInDefinition only the two
    placement lists are sorted.
   */
  function NormalizeService(sv: Service, f: Foreign): Service {
    sv.(
      placementConstraints := SortByKey(sv.placementConstraints, f.showPlacementConstraint),
      placementStrategy := SortByKey(sv.placementStrategy, f.showPlacementStrategy),
      platformVersion :=
        if EqualString(sv.launchType, "FARGATE") && sv.platformVersion.None? then Some("LATEST")
        else sv.platformVersion,
      deploymentConfiguration :=
        if sv.schedulingStrategy.None? && sv.deploymentConfiguration.None? then
          Some(DeploymentConfiguration(Some(200), Some(100)))
        else if EqualString(sv.schedulingStrategy, "DAEMON") && sv.deploymentConfiguration.None? then
          Some(DeploymentConfiguration(Some(100), Some(0)))
        else sv.deploymentConfiguration,
      healthCheckGracePeriodSeconds :=
        if |sv.loadBalancers| > 0 && sv.healthCheckGracePeriodSeconds.None? then Some(0)
        else sv.healthCheckGracePeriodSeconds,
      networkConfiguration := NormalizeNetwork(sv.networkConfiguration))
  }

  /** The defaults ECS reports for a service that leaves them unset. */
  lemma ServiceDefaults(sv: Service, f: Foreign)
    ensures var n := NormalizeService(sv, f);
      && (sv.launchType == Some("FARGATE") && sv.platformVersion.None? ==> n.platformVersion == Some("LATEST"))
      && (sv.schedulingStrategy.None? && sv.deploymentConfiguration.None? ==>
            n.deploymentConfiguration == Some(DeploymentConfiguration(Some(200), Some(100))))
      && (sv.schedulingStrategy == Some("DAEMON") && sv.deploymentConfiguration.None? ==>
            n.deploymentConfiguration == Some(DeploymentConfiguration(Some(100), Some(0))))
      && (sv.schedulingStrategy == Some("REPLICA") && sv.deploymentConfiguration.None? ==>
            n.deploymentConfiguration.None?)
      && (|sv.loadBalancers| > 0 && sv.healthCheckGracePeriodSeconds.None? ==> n.healthCheckGracePeriodSeconds == Some(0))
      && (|sv.loadBalancers| == 0 ==> n.healthCheckGracePeriodSeconds == sv.healthCheckGracePeriodSeconds)
      && (sv.networkConfiguration.Some? && sv.networkConfiguration.value.awsvpcConfiguration.Some? ==>
            && n.networkConfiguration.Some? && n.networkConfiguration.value.awsvpcConfiguration.Some?
            && n.networkConfiguration.value.awsvpcConfiguration.value.assignPublicIp ==
                 Some(sv.networkConfiguration.value.awsvpcConfiguration.value.assignPublicIp.GetOr("DISABLED")))
  {
  }

  /** Normalisation never overwrites a value that is set, and changes nothing outside the lists and defaults. */
  lemma ServiceSetValuesKept(sv: Service, f: Foreign)
    ensures var n := NormalizeService(sv, f);
      && (sv.platformVersion.Some? ==> n.platformVersion == sv.platformVersion)
      && (sv.deploymentConfiguration.Some? ==> n.deploymentConfiguration == sv.deploymentConfiguration)
      && (sv.healthCheckGracePeriodSeconds.Some? ==> n.healthCheckGracePeriodSeconds == sv.healthCheckGracePeriodSeconds)
      && (sv.networkConfiguration.Some? && sv.networkConfiguration.value.awsvpcConfiguration.Some?
          && sv.networkConfiguration.value.awsvpcConfiguration.value.assignPublicIp.Some? ==>
            n.networkConfiguration.value.awsvpcConfiguration.value.assignPublicIp
              == sv.networkConfiguration.value.awsvpcConfiguration.value.assignPublicIp)
      && n.(placementConstraints := [], placementStrategy := [], platformVersion := None,
            deploymentConfiguration := None, healthCheckGracePeriodSeconds := None, networkConfiguration := None)
         == sv.(placementConstraints := [], placementStrategy := [], platformVersion := None,
            deploymentConfiguration := None, healthCheckGracePeriodSeconds := None, networkConfiguration := None)
  {
  }

  /** The sortable lists come out sorted by their rendering, each a permutation of what went in. */
  lemma ServiceListsSorted(sv: Service, f: Foreign)
    ensures var n := NormalizeService(sv, f);
      && Sorted(n.placementConstraints, f.showPlacementConstraint)
      && multiset(n.placementConstraints) == multiset(sv.placementConstraints)
      && Sorted(n.placementStrategy, f.showPlacementStrategy)
      && multiset(n.placementStrategy) == multiset(sv.placementStrategy)
      && (sv.networkConfiguration.Some? && sv.networkConfiguration.value.awsvpcConfiguration.Some? ==>
            var ac := sv.networkConfiguration.value.awsvpcConfiguration.value;
            var ac' := n.networkConfiguration.value.awsvpcConfiguration.value;
            && Sorted(ac'.securityGroups, Self) && multiset(ac'.securityGroups) == multiset(ac.securityGroups)
            && Sorted(ac'.subnets, Self) && multiset(ac'.subnets) == multiset(ac.subnets))
  {
  }

  /** Normalising twice is normalising once. */
  lemma {:induction false} NormalizeServiceIdempotent(sv: Service, f: Foreign)
    ensures NormalizeService(NormalizeService(sv, f), f) == NormalizeService(sv, f)
  {
    var n := NormalizeService(sv, f);
    SortByKeySorted(n.placementConstraints, f.showPlacementConstraint);
    SortByKeySorted(n.placementStrategy, f.showPlacementStrategy);
    if n.networkConfiguration.Some? && n.networkConfiguration.value.awsvpcConfiguration.Some? {
      var ac := n.networkConfiguration.value.awsvpcConfiguration.value;
      SortByKeySorted(ac.securityGroups, Self);
      SortByKeySorted(ac.subnets, Self);
    }
  }

  /** Element-wise string keys tell distinct strings apart. */
  lemma SelfInjective(s: seq<string>)
    ensures KeyInjective(s, Self)
  {
  }

  /** The network settings agree up to the order of the security groups and the subnets. */
  ghost predicate SameNetworkUpToOrder(a: Option<NetworkConfiguration>, b: Option<NetworkConfiguration>) {
    || a == b
    || (&& a.Some? && b.Some?
        && a.value.awsvpcConfiguration.Some? && b.value.awsvpcConfiguration.Some?
        && var x, y := a.value.awsvpcConfiguration.value, b.value.awsvpcConfiguration.value;
        && x.assignPublicIp == y.assignPublicIp
        && multiset(x.securityGroups) == multiset(y.securityGroups)
        && multiset(x.subnets) == multiset(y.subnets))
  }

  /**
    Two services that differ only in the order of their sortable lists, with
    renderings that tell the elements apart.
   */
  ghost predicate SameServiceUpToOrder(a: Service, b: Service, f: Foreign) {
    && multiset(a.placementConstraints) == multiset(b.placementConstraints)
    && KeyInjective(a.placementConstraints, f.showPlacementConstraint)
    && multiset(a.placementStrategy) == multiset(b.placementStrategy)
    && KeyInjective(a.placementStrategy, f.showPlacementStrategy)
    && SameNetworkUpToOrder(a.networkConfiguration, b.networkConfiguration)
    && a.(placementConstraints := b.placementConstraints, placementStrategy := b.placementStrategy,
          networkConfiguration := b.networkConfiguration) == b
  }

  /** What diffService compares for one side: the update input of the normalised service. */
  function ServiceDiffSide(sv: Service, f: Foreign): UpdateServiceInput {
    SrvToUpdateServiceInput(NormalizeService(sv, f))
  }

  lemma NormalizeNetworkIgnoresOrder(a: Option<NetworkConfiguration>, b: Option<NetworkConfiguration>)
    requires SameNetworkUpToOrder(a, b)
    ensures NormalizeNetwork(a) == NormalizeNetwork(b)
  {
    if a != b {
      var x := a.value.awsvpcConfiguration.value;
      var y := b.value.awsvpcConfiguration.value;
      SelfInjective(x.securityGroups);
      SelfInjective(x.subnets);
      SortByKeyForgetsOrder(x.securityGroups, y.securityGroups, Self);
      SortByKeyForgetsOrder(x.subnets, y.subnets, Self);
    }
  }

  /** diffService sees no difference between services that differ only in the order of their lists. */
  lemma DiffServiceIgnoresOrder(a: Service, b: Service, f: Foreign)
    requires SameServiceUpToOrder(a, b, f)
    ensures NormalizeService(a, f) == NormalizeService(b, f)
    ensures ServiceDiffSide(a, f) == ServiceDiffSide(b, f)
  {
    SortByKeyForgetsOrder(a.placementConstraints, b.placementConstraints, f.showPlacementConstraint);
    SortByKeyForgetsOrder(a.placementStrategy, b.placementStrategy, f.showPlacementStrategy);
    NormalizeNetworkIgnoresOrder(a.networkConfiguration, b.networkConfiguration);
  }

  /** Nor does it see the service's identity, its task definition or its desired count. */
  lemma DiffServiceIgnoresIdentity(sv: Service, f: Foreign, name: Option<string>, arn: Option<string>,
      cluster: Option<string>, status: Option<string>, td: Option<string>, count: Option<int>)
    ensures ServiceDiffSide(sv, f) == ServiceDiffSide(sv.(serviceName := name, serviceArn := arn,
      clusterArn := cluster, status := status, taskDefinition := td, desiredCount := count), f)
  {
  }

  /** A service whose settings ECS would report differently, because it leaves them unset, still compares equal. */
  lemma DiffServiceFillsDefaults(sv: Service, f: Foreign)
    requires sv.schedulingStrategy.None? && sv.deploymentConfiguration.None?
    ensures ServiceDiffSide(sv, f)
      == ServiceDiffSide(sv.(deploymentConfiguration := Some(DeploymentConfiguration(Some(200), Some(100)))), f)
  {
  }

  // ---------------------------------------------------------------------------
  // Task definitions (sortTaskDefinitionForDiff)

  /** The per-container step: a nil Cpu becomes 0 and the five sortable lists are sorted. */
  function NormalizeContainer(cd: ContainerDefinition, f: Foreign): ContainerDefinition {
    cd.(
      cpu := if cd.cpu.None? then Some(0) else cd.cpu,
      environment := SortByKey(cd.environment, f.showKeyValuePair),
      mountPoints := SortByKey(cd.mountPoints, f.showMountPoint),
      portMappings := SortByKey(cd.portMappings, f.showPortMapping),
      volumesFrom := SortByKey(cd.volumesFrom, f.showVolumeFrom),
      secrets := SortByKey(cd.secrets, f.showSecret))
  }

  /** The containers after the per-container step, in their original order. */
  function NormalizedContainers(cds: seq<ContainerDefinition>, f: Foreign): seq<ContainerDefinition> {
    MapSeq(cds, (cd: ContainerDefinition) => NormalizeContainer(cd, f))
  }

  /**
    sortTaskDefinitionForDiff: each container is normalised first, then the
    containers are sorted by the rendering of the normalised containers, and
    the task-level CPU and memory are converted.
   */
  function NormalizeTaskDefinition(td: TaskDefinition, f: Foreign): TaskDefinition {
    td.(
      containerDefinitions := SortByKey(NormalizedContainers(td.containerDefinitions, f), f.showContainer),
      placementConstraints := SortByKey(td.placementConstraints, f.showPlacementConstraint),
      requiresCompatibilities := SortByKey(td.requiresCompatibilities, Self),
      volumes := SortByKey(td.volumes, f.showVolume),
      cpu := if td.cpu.Some? then ToNumberCPU(td.cpu.value, f) else None,
      memory := if td.memory.Some? then ToNumberMemory(td.memory.value, f) else None)
  }

  /** Every container comes out with a CPU value; one that was set is kept. */
  lemma ContainerCpuFilled(td: TaskDefinition, f: Foreign)
    ensures var cds := NormalizeTaskDefinition(td, f).containerDefinitions;
      && |cds| == |td.containerDefinitions|
      && (forall i :: 0 <= i < |cds| ==> cds[i].cpu.Some?)
      && multiset(cds) == multiset(NormalizedContainers(td.containerDefinitions, f))
  {
    var ns := NormalizedContainers(td.containerDefinitions, f);
    assert forall i :: 0 <= i < |ns| ==> ns[i].cpu.Some?;
    CpuSurvivesPermutation(NormalizeTaskDefinition(td, f).containerDefinitions, ns);
  }

  lemma CpuSurvivesPermutation(cds: seq<ContainerDefinition>, ns: seq<ContainerDefinition>)
    requires multiset(cds) == multiset(ns)
    requires forall i :: 0 <= i < |ns| ==> ns[i].cpu.Some?
    ensures |cds| == |ns| && forall i :: 0 <= i < |cds| ==> cds[i].cpu.Some?
  {
    assert |cds| == |multiset(cds)| == |multiset(ns)| == |ns|;
    forall i | 0 <= i < |cds| ensures cds[i].cpu.Some? {
      assert cds[i] in multiset(ns);
    }
  }

  /** A container's CPU that was set is kept; a missing one becomes 0. */
  lemma ContainerCpuKept(cd: ContainerDefinition, f: Foreign)
    ensures NormalizeContainer(cd, f).cpu == Some(cd.cpu.GetOr(0))
  {
  }

  /** Normalising a container twice is normalising it once. */
  lemma NormalizeContainerIdempotent(cd: ContainerDefinition, f: Foreign)
    ensures NormalizeContainer(NormalizeContainer(cd, f), f) == NormalizeContainer(cd, f)
  {
    var n := NormalizeContainer(cd, f);
    SortByKeySorted(n.environment, f.showKeyValuePair);
    SortByKeySorted(n.mountPoints, f.showMountPoint);
    SortByKeySorted(n.portMappings, f.showPortMapping);
    SortByKeySorted(n.volumesFrom, f.showVolumeFrom);
    SortByKeySorted(n.secrets, f.showSecret);
  }

  /** A permutation of normalised containers is left as it is by the per-container step. */
  lemma NormalizedContainersStable(cds: seq<ContainerDefinition>, orig: seq<ContainerDefinition>, f: Foreign)
    requires multiset(cds) == multiset(NormalizedContainers(orig, f))
    ensures NormalizedContainers(cds, f) == cds
  {
    var ns := NormalizedContainers(orig, f);
    forall i | 0 <= i < |cds| ensures NormalizeContainer(cds[i], f) == cds[i] {
      assert cds[i] in multiset(ns);
      var k :| 0 <= k < |ns| && ns[k] == cds[i];
      NormalizeContainerIdempotent(orig[k], f);
    }
  }

  /** The converted CPU and memory convert to themselves. */
  lemma SizesStable(td: TaskDefinition, f: Foreign)
    ensures var n := NormalizeTaskDefinition(td, f);
      && (if n.cpu.Some? then ToNumberCPU(n.cpu.value, f) else None) == n.cpu
      && (if n.memory.Some? then ToNumberMemory(n.memory.value, f) else None) == n.memory
  {
    ToNumberIdempotent(td.cpu.GetOr(""), td.memory.GetOr(""), f);
  }

  /** Normalising a task definition twice is normalising it once. */
  lemma NormalizeTaskDefinitionIdempotent(td: TaskDefinition, f: Foreign)
    ensures NormalizeTaskDefinition(NormalizeTaskDefinition(td, f), f) == NormalizeTaskDefinition(td, f)
  {
    var n := NormalizeTaskDefinition(td, f);
    NormalizedContainersStable(n.containerDefinitions, td.containerDefinitions, f);
    SortByKeySorted(n.containerDefinitions, f.showContainer);
    SizesStable(td, f);
    SortByKeySorted(n.placementConstraints, f.showPlacementConstraint);
    SortByKeySorted(n.requiresCompatibilities, Self);
    SortByKeySorted(n.volumes, f.showVolume);
  }

  /** Two containers that differ only in the order of their sortable lists. */
  ghost predicate SameContainerUpToOrder(a: ContainerDefinition, b: ContainerDefinition, f: Foreign) {
    && multiset(a.environment) == multiset(b.environment) && KeyInjective(a.environment, f.showKeyValuePair)
    && multiset(a.mountPoints) == multiset(b.mountPoints) && KeyInjective(a.mountPoints, f.showMountPoint)
    && multiset(a.portMappings) == multiset(b.portMappings) && KeyInjective(a.portMappings, f.showPortMapping)
    && multiset(a.volumesFrom) == multiset(b.volumesFrom) && KeyInjective(a.volumesFrom, f.showVolumeFrom)
    && multiset(a.secrets) == multiset(b.secrets) && KeyInjective(a.secrets, f.showSecret)
    && a.(environment := b.environment, mountPoints := b.mountPoints, portMappings := b.portMappings,
          volumesFrom := b.volumesFrom, secrets := b.secrets) == b
  }

  lemma NormalizeContainerIgnoresOrder(a: ContainerDefinition, b: ContainerDefinition, f: Foreign)
    requires SameContainerUpToOrder(a, b, f)
    ensures NormalizeContainer(a, f) == NormalizeContainer(b, f)
  {
    SortByKeyForgetsOrder(a.environment, b.environment, f.showKeyValuePair);
    SortByKeyForgetsOrder(a.mountPoints, b.mountPoints, f.showMountPoint);
    SortByKeyForgetsOrder(a.portMappings, b.portMappings, f.showPortMapping);
    SortByKeyForgetsOrder(a.volumesFrom, b.volumesFrom, f.showVolumeFrom);
    SortByKeyForgetsOrder(a.secrets, b.secrets, f.showSecret);
  }

  /**
    Two task definitions whose containers are the same up to order (of the
    containers and of each container's lists), and whose other sortable lists
    are permutations of each other, with renderings that tell elements apart.
   */
  ghost predicate SameTdUpToOrder(a: TaskDefinition, b: TaskDefinition, f: Foreign) {
    && multiset(NormalizedContainers(a.containerDefinitions, f)) == multiset(NormalizedContainers(b.containerDefinitions, f))
    && KeyInjective(NormalizedContainers(a.containerDefinitions, f), f.showContainer)
    && multiset(a.placementConstraints) == multiset(b.placementConstraints)
    && KeyInjective(a.placementConstraints, f.showPlacementConstraint)
    && multiset(a.requiresCompatibilities) == multiset(b.requiresCompatibilities)
    && multiset(a.volumes) == multiset(b.volumes) && KeyInjective(a.volumes, f.showVolume)
    && a.(containerDefinitions := b.containerDefinitions, placementConstraints := b.placementConstraints,
          requiresCompatibilities := b.requiresCompatibilities, volumes := b.volumes) == b
  }

  /** What diffTaskDefinition compares for one side: the register input of the normalised definition. */
  function TaskDefinitionDiffSide(td: TaskDefinition, f: Foreign): RegisterTaskDefinitionInput {
    TdToRegisterTaskDefinitionInput(NormalizeTaskDefinition(td, f))
  }

  /** diffTaskDefinition sees no difference between definitions that differ only in order. */
  lemma DiffTaskDefinitionIgnoresOrder(a: TaskDefinition, b: TaskDefinition, f: Foreign)
    requires SameTdUpToOrder(a, b, f)
    ensures NormalizeTaskDefinition(a, f) == NormalizeTaskDefinition(b, f)
    ensures TaskDefinitionDiffSide(a, f) == TaskDefinitionDiffSide(b, f)
  {
    SortByKeyForgetsOrder(NormalizedContainers(a.containerDefinitions, f),
      NormalizedContainers(b.containerDefinitions, f), f.showContainer);
    SortByKeyForgetsOrder(a.placementConstraints, b.placementConstraints, f.showPlacementConstraint);
    SelfInjective(a.requiresCompatibilities);
    SortByKeyForgetsOrder(a.requiresCompatibilities, b.requiresCompatibilities, Self);
    SortByKeyForgetsOrder(a.volumes, b.volumes, f.showVolume);
  }

  /** Reordering the containers keeps the normalised containers a permutation. */
  lemma ReorderedContainers(a: seq<ContainerDefinition>, b: seq<ContainerDefinition>, f: Foreign)
    requires multiset(a) == multiset(b)
    ensures multiset(NormalizedContainers(a, f)) == multiset(NormalizedContainers(b, f))
  {
    MapPermutation(a, b, (cd: ContainerDefinition) => NormalizeContainer(cd, f));
  }

  /** Reordering the lists inside each container gives the same normalised containers. */
  lemma ReorderedWithinContainers(a: seq<ContainerDefinition>, b: seq<ContainerDefinition>, f: Foreign)
    requires |a| == |b|
    requires forall i :: 0 <= i < |a| ==> SameContainerUpToOrder(a[i], b[i], f)
    ensures NormalizedContainers(a, f) == NormalizedContainers(b, f)
  {
    forall i | 0 <= i < |a| ensures NormalizeContainer(a[i], f) == NormalizeContainer(b[i], f) {
      NormalizeContainerIgnoresOrder(a[i], b[i], f);
    }
  }

  /** The server-assigned ARN, revision and status play no part in the comparison. */
  lemma DiffTaskDefinitionIgnoresAssigned(a: TaskDefinition, b: TaskDefinition, f: Foreign)
    requires Assigned(a) == Assigned(b)
    ensures TaskDefinitionDiffSide(a, f) == TaskDefinitionDiffSide(b, f)
  {
    assert NormalizeTaskDefinition(a, f).(taskDefinitionArn := None, revision := None, status := None)
      == NormalizeTaskDefinition(b, f).(taskDefinitionArn := None, revision := None, status := None);
    RegisterInputDeterminesDefinition(NormalizeTaskDefinition(a, f), NormalizeTaskDefinition(b, f));
  }
}
