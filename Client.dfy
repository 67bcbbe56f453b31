/**
  The AWS side of the program, as the planners see it. Reads (describe, list)
  are answered by the functions of an `Api` value. Calls that change the
  cluster, or wait on it, are recorded in order in an action log, and `outcome`
  says whether each one failed. A call is recorded when it is issued, so a
  call that fails is the last entry of the log.
 */
module Client {
  import opened Wrappers
  import opened Ecs

  /** The calls that change the cluster or wait on it, with the arguments the program passes. */
  datatype Action =
    | RegisterTaskDefinition(input: RegisterTaskDefinitionInput)
    | CreateLogGroup(group: string)
    | CreateService(cluster: string, taskDefinitionArn: string, service: Service)
    | DeleteService(name: string, deleteCluster: string, force: bool)
    | UpdateService(update: UpdateServiceInput)
    | WaitServicesStable(waitCluster: string, names: seq<string>)
    | DeregisterTaskDefinition(arn: string)
    | RunTask(run: RunTaskInput)
    | WaitTaskStopped(taskCluster: string, taskArn: string)

  /**
    What the program reports. An AWS error is passed on with the name of the
    call that returned it; `Crash` stands for a Go run-time panic (a nil
    pointer dereference or an index out of range) and names where it happens.
   */
  datatype Error =
    | ApiError(call: string, message: string)
    | ConfigFailed(message: string)
    | BadReference(service: string, taskDefinition: string)
    | BadReferenceUnnamed
    | RollbackTargetNotFound
    | DescribeTaskFailed(arn: string, reason: string)
    | ContainerFailed(container: string, exitCode: Option<int>, stopReason: Option<string>)
    | RunTaskFailed(failure: string)
    | UndefinedService(name: string)
    | InvalidOverrides(message: string)
    | BadParam(param: string)
    | UnknownStartTimeFormat
    | InvalidNumber(message: string)
    | Crash(what: string)

  /**
    The answers of the ECS and CloudWatch Logs APIs.
    `listTaskDefinitions(family)` is the DESC listing for a family prefix, one
    entry per page of at most 100 ARNs; the page after page `i` is requested
    with a NextToken exactly when `i + 1 < |pages|`.
   */
  datatype Api = Api(
    registerTaskDefinition: RegisterTaskDefinitionInput -> Result<TaskDefinition, string>,
    runTask: RunTaskInput -> Result<RunTaskOutput, string>,
    outcome: Action -> Option<string>,
    describeServices: (string, seq<string>) -> Result<DescribeServicesOutput, string>,
    describeTaskDefinition: string -> Result<TaskDefinition, string>,
    listTaskDefinitions: string -> seq<ListPage>,
    describeLogGroups: string -> Result<seq<string>, string>,
    describeTasks: (string, string) -> Result<DescribeTasksOutput, string>,
    listServiceTasks: (string, string) -> Result<seq<Task>, string>)

  /** The calls issued so far and the first error. */
  datatype Trace = Trace(log: seq<Action>, err: Option<Error>)

  /** Issues a mutating or waiting call: it is recorded, and its outcome becomes the error. */
  function Call(api: Api, t: Trace, a: Action, call: string): (u: Trace)
    ensures u.log == t.log + [a]
    ensures u.err.Some? <==> api.outcome(a).Some?
  {
    match api.outcome(a)
    case Some(m) => Trace(t.log + [a], Some(ApiError(call, m)))
    case None => Trace(t.log + [a], None)
  }
}
