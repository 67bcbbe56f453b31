/**
  The parts of the ECS API's data types that the core reads or writes. A Go
  pointer field (`*string`, `*int64`, `*bool`, a pointer to a struct) is an
  Option, None for nil, except for the fields the API always fills, which are
  plain values: `ApiFailure.arn` and `reason`, `Container.name`,
  `Task.taskArn`, and the values of `LogConfiguration.options` (an absent
  option key stands for a nil pointer, a present key with a nil value is not
  represented). A slice is a seq, and a nil slice and an empty one are both
  []. Integers are the API's int64 values.
 */
module Ecs {
  import opened Wrappers

  // ---------------------------------------------------------------------------
  // Task definitions

  datatype KeyValuePair = KeyValuePair(name: Option<string>, value: Option<string>)
  datatype Secret = Secret(name: Option<string>, valueFrom: Option<string>)
  datatype MountPoint = MountPoint(containerPath: Option<string>, readOnly: Option<bool>, sourceVolume: Option<string>)
  datatype PortMapping = PortMapping(containerPort: Option<int>, hostPort: Option<int>, protocol: Option<string>)
  datatype VolumeFrom = VolumeFrom(readOnly: Option<bool>, sourceContainer: Option<string>)
  datatype LogConfiguration = LogConfiguration(logDriver: Option<string>, options: map<string, string>)

  datatype ContainerDefinition = ContainerDefinition(
    name: Option<string>,
    image: Option<string>,
    cpu: Option<int>,
    command: seq<string>,
    environment: seq<KeyValuePair>,
    mountPoints: seq<MountPoint>,
    portMappings: seq<PortMapping>,
    volumesFrom: seq<VolumeFrom>,
    secrets: seq<Secret>,
    logConfiguration: Option<LogConfiguration>)

  datatype PlacementConstraint = PlacementConstraint(expression: Option<string>, constraintType: Option<string>)
  datatype Volume = Volume(name: Option<string>, hostSourcePath: Option<string>)
  datatype ProxyConfiguration = ProxyConfiguration(containerName: Option<string>, proxyType: Option<string>)

  datatype TaskDefinition = TaskDefinition(
    taskDefinitionArn: Option<string>,
    family: Option<string>,
    revision: Option<int>,
    status: Option<string>,
    containerDefinitions: seq<ContainerDefinition>,
    cpu: Option<string>,
    memory: Option<string>,
    executionRoleArn: Option<string>,
    networkMode: Option<string>,
    placementConstraints: seq<PlacementConstraint>,
    requiresCompatibilities: seq<string>,
    taskRoleArn: Option<string>,
    proxyConfiguration: Option<ProxyConfiguration>,
    volumes: seq<Volume>)

  /** The zero value of ecs.ContainerDefinition. */
  const EmptyContainerDefinition := ContainerDefinition(None, None, None, [], [], [], [], [], [], None)

  /** The zero value of ecs.TaskDefinition (`var td ecs.TaskDefinition`). */
  const EmptyTaskDefinition := TaskDefinition(None, None, None, None, [], None, None, None, None, [], [], None, None, [])

  datatype RegisterTaskDefinitionInput = RegisterTaskDefinitionInput(
    containerDefinitions: seq<ContainerDefinition>,
    cpu: Option<string>,
    executionRoleArn: Option<string>,
    family: Option<string>,
    memory: Option<string>,
    networkMode: Option<string>,
    placementConstraints: seq<PlacementConstraint>,
    requiresCompatibilities: seq<string>,
    taskRoleArn: Option<string>,
    proxyConfiguration: Option<ProxyConfiguration>,
    volumes: seq<Volume>)

  // ---------------------------------------------------------------------------
  // Services

  datatype DeploymentConfiguration = DeploymentConfiguration(maximumPercent: Option<int>, minimumHealthyPercent: Option<int>)
  datatype AwsVpcConfiguration = AwsVpcConfiguration(assignPublicIp: Option<string>, securityGroups: seq<string>, subnets: seq<string>)
  datatype NetworkConfiguration = NetworkConfiguration(awsvpcConfiguration: Option<AwsVpcConfiguration>)
  datatype LoadBalancer = LoadBalancer(containerName: Option<string>, containerPort: Option<int>, targetGroupArn: Option<string>)
  datatype PlacementStrategy = PlacementStrategy(field: Option<string>, strategyType: Option<string>)
  datatype CapacityProviderStrategyItem = CapacityProviderStrategyItem(capacityProvider: Option<string>, weight: Option<int>, base: Option<int>)

  datatype Service = Service(
    serviceName: Option<string>,
    serviceArn: Option<string>,
    clusterArn: Option<string>,
    status: Option<string>,
    taskDefinition: Option<string>,
    desiredCount: Option<int>,
    launchType: Option<string>,
    platformVersion: Option<string>,
    schedulingStrategy: Option<string>,
    deploymentConfiguration: Option<DeploymentConfiguration>,
    loadBalancers: seq<LoadBalancer>,
    healthCheckGracePeriodSeconds: Option<int>,
    networkConfiguration: Option<NetworkConfiguration>,
    placementConstraints: seq<PlacementConstraint>,
    placementStrategy: seq<PlacementStrategy>,
    capacityProviderStrategy: seq<CapacityProviderStrategyItem>)

  /** The zero value of ecs.Service. */
  const EmptyService := Service(None, None, None, None, None, None, None, None, None, None, [], None, None, [], [], [])

  datatype UpdateServiceInput = UpdateServiceInput(
    service: Option<string>,
    cluster: Option<string>,
    taskDefinition: Option<string>,
    desiredCount: Option<int>,
    forceNewDeployment: Option<bool>,
    capacityProviderStrategy: seq<CapacityProviderStrategyItem>,
    deploymentConfiguration: Option<DeploymentConfiguration>,
    healthCheckGracePeriodSeconds: Option<int>,
    networkConfiguration: Option<NetworkConfiguration>,
    placementConstraints: seq<PlacementConstraint>,
    placementStrategy: seq<PlacementStrategy>,
    platformVersion: Option<string>)

  const EmptyUpdateServiceInput := UpdateServiceInput(None, None, None, None, None, [], None, None, None, [], [], None)

  /**
    One entry of the `Failures` list of a describe or run call. The API always
    fills both fields, so the model has no nil case for them.
   */
  datatype ApiFailure = ApiFailure(arn: string, reason: string)

  datatype DescribeServicesOutput = DescribeServicesOutput(failures: seq<ApiFailure>, services: seq<Service>)

  // ---------------------------------------------------------------------------
  // Tasks

  /** A running container as DescribeTasks reports it; the API always names it. */
  datatype Container = Container(name: string, exitCode: Option<int>, reason: Option<string>)
  /** A task as RunTask and DescribeTasks report it; the API always gives its ARN. */
  datatype Task = Task(taskArn: string, containers: seq<Container>)
  datatype DescribeTasksOutput = DescribeTasksOutput(failures: seq<ApiFailure>, tasks: seq<Task>)

  datatype ContainerOverride = ContainerOverride(name: Option<string>, command: seq<string>)
  datatype TaskOverride = TaskOverride(containerOverrides: seq<ContainerOverride>, taskRoleArn: Option<string>)

  const EmptyTaskOverride := TaskOverride([], None)

  datatype RunTaskInput = RunTaskInput(
    cluster: Option<string>,
    count: int,
    launchType: Option<string>,
    networkConfiguration: Option<NetworkConfiguration>,
    placementConstraints: seq<PlacementConstraint>,
    placementStrategy: seq<PlacementStrategy>,
    platformVersion: Option<string>,
    capacityProviderStrategy: seq<CapacityProviderStrategyItem>,
    taskDefinition: string,
    overrides: TaskOverride)

  datatype RunTaskOutput = RunTaskOutput(failures: seq<ApiFailure>, tasks: seq<Task>)

  /** One page of ListTaskDefinitions (DESC order), or the call's failure. */
  datatype ListPage = ListPage(arns: seq<string>) | ListFailure(message: string)

  // ---------------------------------------------------------------------------

  /**
    Library code the diff normalisation calls and the model does not look into:
    the SDK's String() rendering of each element type of a sortable list
    (awsutil.Prettify), and `ParseFloat` followed by `int(x * 1024)`, None when
    ParseFloat fails.
   */
  datatype Foreign = Foreign(
    showKeyValuePair: KeyValuePair -> string,
    showMountPoint: MountPoint -> string,
    showPortMapping: PortMapping -> string,
    showVolumeFrom: VolumeFrom -> string,
    showSecret: Secret -> string,
    showContainer: ContainerDefinition -> string,
    showPlacementConstraint: PlacementConstraint -> string,
    showPlacementStrategy: PlacementStrategy -> string,
    showVolume: Volume -> string,
    kibi: string -> Option<int>)
}
