/**
  Run (run.go): runs one task from the configuration of a service, either on
  the service's current task definition or on a new one registered from a
  file, with the overrides given as JSON and an optional command for the
  selected container; then waits for the task to stop and reports its status.
 */
module Run {
  import opened Wrappers
  import opened Ecs
  import opened Client
  import opened EcsUtil
  import opened Deploy

  datatype RunOption = RunOption(
    noWait: bool,
    count: int,
    taskDefinitionPath: string,
    command: Option<seq<string>>,
    overrides: string,
    containerName: string)

  /**
    The local work Run does that the model does not look into: reading,
    rendering and decoding the task definition file at a path (filepath.Abs
    and loadAndMatchTmpl), and decoding the overrides JSON into an empty
    TaskOverride (json.Unmarshal).
   */
  datatype Local = Local(
    loadTaskDefinition: string -> Result<TaskDefinition, string>,
    parseOverrides: string -> Result<TaskOverride, string>)

  // ---------------------------------------------------------------------------
  // containerOf (run.go:24-35)

  /**
    The position of the first container named `name`. Comparing dereferences
    every name met on the way, so a nameless container before the first
    match is a nil dereference.
   */
  function NamedAt(cds: seq<ContainerDefinition>, name: string): (r: Result<Option<nat>, Error>)
    ensures r.Success? && r.value.Some? ==>
      r.value.value < |cds| && cds[r.value.value].name == Some(name) && OthersBefore(cds, name, r.value.value)
    ensures r.Success? && r.value.None? ==> OthersBefore(cds, name, |cds|)
    ensures r.Failure? ==> exists k :: 0 <= k < |cds| && cds[k].name.None? && OthersBefore(cds, name, k)
    ensures r.Failure? ==> r.error == Crash("containerOf: nil container name")
    decreases |cds|
  {
    if cds == [] then Success(None)
    else if cds[0].name.None? then Failure(Crash("containerOf: nil container name"))
    else if cds[0].name.value == name then Success(Some(0))
    else
      match NamedAt(cds[1..], name)
      case Failure(e) =>
        var k :| 0 <= k < |cds[1..]| && cds[1..][k].name.None? && OthersBefore(cds[1..], name, k);
        OthersCons(cds, name, k);
        Failure(e)
      case Success(None) =>
        OthersCons(cds, name, |cds| - 1);
        Success(None)
      case Success(Some(k)) =>
        OthersCons(cds, name, k);
        Success(Some(k + 1))
  }

  /** Every container before position `n` has a name, and not `name`. */
  predicate OthersBefore(cds: seq<ContainerDefinition>, name: string, n: nat)
    requires n <= |cds|
  {
    forall j :: 0 <= j < n ==> cds[j].name.Some? && cds[j].name.value != name
  }

  lemma OthersCons(cds: seq<ContainerDefinition>, name: string, n: nat)
    requires cds != [] && cds[0].name.Some? && cds[0].name.value != name
    requires n <= |cds| - 1 && OthersBefore(cds[1..], name, n)
    ensures OthersBefore(cds, name, n + 1)
    ensures n < |cds| - 1 ==> cds[n + 1] == cds[1..][n]
  {
    forall j | 0 < j < n + 1
      ensures cds[j].name.Some? && cds[j].name.value != name
    {
      assert cds[j] == cds[1..][j - 1];
    }
  }

  /**
    What containerOf selects: with no name, the first container (an index out
    of range when there is none); with a name, the first container of that
    name, or none.
   */
  function SelectContainer(td: TaskDefinition, name: string): Result<Option<ContainerDefinition>, Error> {
    var cds := td.containerDefinitions;
    if name == "" then
      if cds == [] then Failure(Crash("containerOf: no container definitions")) else Success(Some(cds[0]))
    else
      match NamedAt(cds, name)
      case Failure(e) => Failure(e)
      case Success(None) => Success(None)
      case Success(Some(k)) => Success(Some(cds[k]))
  }

  /** containerOf: the search loop with its early return. */
  method ContainerOf(td: TaskDefinition, name: string) returns (r: Result<Option<ContainerDefinition>, Error>)
    ensures r == SelectContainer(td, name)
  {
    var cds := td.containerDefinitions;
    if name == "" {
      if cds == [] {
        return Failure(Crash("containerOf: no container definitions"));
      }
      return Success(Some(cds[0]));
    }
    var i := 0;
    while i < |cds|
      invariant 0 <= i <= |cds|
      invariant forall k :: 0 <= k < i ==> cds[k].name.Some? && cds[k].name.value != name
    {
      if cds[i].name.None? {
        return Failure(Crash("containerOf: nil container name"));
      }
      if cds[i].name.value == name {
        return Success(Some(cds[i]));
      }
      i := i + 1;
    }
    return Success(None);
  }

  /** With no container name, the first container is selected. */
  lemma ContainerOfUnnamed(td: TaskDefinition)
    requires td.containerDefinitions != []
    ensures SelectContainer(td, "") == Success(Some(td.containerDefinitions[0]))
  {
  }

  /** With a name, the first container of that name is selected. */
  lemma ContainerOfNamed(td: TaskDefinition, name: string, k: nat)
    requires name != "" && k < |td.containerDefinitions|
    requires td.containerDefinitions[k].name == Some(name)
    requires forall j :: 0 <= j < k ==> td.containerDefinitions[j].name.Some? && td.containerDefinitions[j].name.value != name
    ensures SelectContainer(td, name) == Success(Some(td.containerDefinitions[k]))
  {
  }

  /** With a name no container has, nothing is selected. */
  lemma ContainerOfAbsent(td: TaskDefinition, name: string)
    requires name != ""
    requires forall j :: 0 <= j < |td.containerDefinitions| ==>
      td.containerDefinitions[j].name.Some? && td.containerDefinitions[j].name.value != name
    ensures SelectContainer(td, name) == Success(None)
  {
  }

  // ---------------------------------------------------------------------------
  // Run (run.go:37-124)

  /**
    The task definition the task runs on, and its ARN: registered from the
    file when a path is given (the registration is logged), otherwise the
    service's current one.
   */
  function Source(api: Api, local: Local, opt: RunOption, srv: Service): (seq<Action>, Result<(string, TaskDefinition), Error>) {
    if |opt.taskDefinitionPath| > 0 then
      match local.loadTaskDefinition(opt.taskDefinitionPath)
      case Failure(m) => ([], Failure(ConfigFailed(m)))
      case Success(td) =>
        var input := TdToRegisterTaskDefinitionInput(td);
        var log := [RegisterTaskDefinition(input)];
        match api.registerTaskDefinition(input)
        case Failure(m) => (log, Failure(ApiError("RegisterTaskDefinition", m)))
        case Success(newTd) =>
          if newTd.taskDefinitionArn.None? then (log, Failure(Crash("RegisterTaskDefinition: nil TaskDefinitionArn")))
          else (log, Success((newTd.taskDefinitionArn.value, newTd)))
    else if srv.taskDefinition.None? then ([], Failure(Crash("Run: nil TaskDefinition")))
    else
      match api.describeTaskDefinition(srv.taskDefinition.value)
      case Failure(m) => ([], Failure(ApiError("DescribeTaskDefinition", m)))
      case Success(td) => ([], Success((srv.taskDefinition.value, td)))
  }

  /** The overrides of the JSON; none when it is empty. */
  function ParsedOverrides(local: Local, opt: RunOption): Result<TaskOverride, Error> {
    if opt.overrides == "" then Success(EmptyTaskOverride)
    else
      match local.parseOverrides(opt.overrides)
      case Failure(m) => Failure(InvalidOverrides(m))
      case Success(ov) => Success(ov)
  }

  /** The overrides the task runs with: a command replaces all container overrides by one for `container`. */
  function Overrides(local: Local, opt: RunOption, container: string): Result<TaskOverride, Error> {
    match ParsedOverrides(local, opt)
    case Failure(e) => Failure(e)
    case Success(ov) =>
      if opt.command.Some? then Success(ov.(containerOverrides := [ContainerOverride(Some(container), opt.command.value)]))
      else Success(ov)
  }

  /** The RunTask input (ecs_util.go:453-465): placement and network settings come from the described service. */
  function RunTaskInputOf(srv: Service, taskDefinitionArn: string, count: int, ov: TaskOverride): RunTaskInput {
    RunTaskInput(
      srv.clusterArn, count, srv.launchType, srv.networkConfiguration, srv.placementConstraints,
      srv.placementStrategy, srv.platformVersion, srv.capacityProviderStrategy, taskDefinitionArn, ov)
  }

  /** The started task: a failure entry is an error, and a response without tasks an index out of range. */
  function StartedTask(out: Result<RunTaskOutput, string>): Result<Task, Error> {
    match out
    case Failure(m) => Failure(ApiError("RunTask", m))
    case Success(o) =>
      if |o.failures| > 0 then Failure(RunTaskFailed(o.failures[0].reason))
      else if o.tasks == [] then Failure(Crash("RunTask: no task"))
      else Success(o.tasks[0])
  }

  /**
    WaitRunTask (ecs_util.go:553-578): waits for the task to stop. When the
    container logs to awslogs with a stream prefix, the log stream is worked
    out first (and its events are followed meanwhile); a log configuration
    without a driver is a nil dereference.
   */
  function WaitRunTask(api: Api, cluster: string, task: Task, c: ContainerDefinition, log: seq<Action>): Trace {
    var wait := Call(api, Trace(log, None), WaitTaskStopped(cluster, task.taskArn), "WaitTasksStopped");
    match c.logConfiguration
    case None => wait
    case Some(lc) =>
      if lc.logDriver.None? then Trace(log, Some(Crash("WaitRunTask: nil LogDriver")))
      else if lc.logDriver.value != "awslogs" || "awslogs-stream-prefix" !in lc.options then wait
      else
        match GetLogInfo(task.taskArn, c)
        case Failure(e) => Trace(log, Some(e))
        case Success(_) => wait
  }

  /** After the task started: the wait unless `noWait`, then the status of the selected container. */
  function Finish(api: Api, cluster: string, noWait: bool, c: ContainerDefinition, task: Task, log: seq<Action>): Trace
    requires c.name.Some?
  {
    var waited := if noWait then Trace(log, None) else WaitRunTask(api, cluster, task, c, log);
    if waited.err.Some? then waited
    else
      match TaskStatus(api.describeTasks(cluster, task.taskArn), c.name.value)
      case Some(e) => Trace(waited.log, Some(e))
      case None => waited
  }

  /** From the chosen task definition on: the container, the overrides, RunTask and the rest. */
  function Launch(api: Api, local: Local, opt: RunOption, cluster: string, srv: Service,
                  taskDefinitionArn: string, td: TaskDefinition, log: seq<Action>): Trace
  {
    match SelectContainer(td, opt.containerName)
    case Failure(e) => Trace(log, Some(e))
    case Success(None) => Trace(log, Some(Crash("Run: nil container")))
    case Success(Some(c)) =>
      if c.name.None? then Trace(log, Some(Crash("Run: nil container name")))
      else
        match Overrides(local, opt, c.name.value)
        case Failure(e) => Trace(log, Some(e))
        case Success(ov) =>
          var input := RunTaskInputOf(srv, taskDefinitionArn, opt.count, ov);
          var ran := log + [RunTask(input)];
          match StartedTask(api.runTask(input))
          case Failure(e) => Trace(ran, Some(e))
          case Success(task) => Finish(api, cluster, opt.noWait, c, task, ran)
  }

  /**
    What Run issues and reports. `resolved` is the outcome of
    ResolveConfigStack with the additional parameters; the service is looked
    up by the name as given, and described by that same name.
   */
  function RunPlan(api: Api, local: Local, resolved: Result<Definition, string>, name: string, opt: RunOption): Trace {
    match resolved
    case Failure(m) => Trace([], Some(ConfigFailed(m)))
    case Success(def) =>
      if name !in def.nameToSrv then Trace([], Some(UndefinedService(name)))
      else
        match api.describeServices(def.cluster, [name])
        case Failure(m) => Trace([], Some(ApiError("DescribeServices", m)))
        case Success(desc) =>
          if desc.services == [] then Trace([], Some(Crash("Run: no service described")))
          else
            var srv := desc.services[0];
            var (log, chosen) := Source(api, local, opt, srv);
            match chosen
            case Failure(e) => Trace(log, Some(e))
            case Success((arn, td)) => Launch(api, local, opt, def.cluster, srv, arn, td, log)
  }

  /** Run, step by step, building the overrides in place. */
  method Run(api: Api, local: Local, resolved: Result<Definition, string>, name: string, opt: RunOption)
    returns (log: seq<Action>, err: Option<Error>)
    ensures Trace(log, err) == RunPlan(api, local, resolved, name, opt)
  {
    if resolved.Failure? {
      return [], Some(ConfigFailed(resolved.error));
    }
    var def := resolved.value;
    if name !in def.nameToSrv {
      return [], Some(UndefinedService(name));
    }
    var desc := api.describeServices(def.cluster, [name]);
    if desc.Failure? {
      return [], Some(ApiError("DescribeServices", desc.error));
    }
    if desc.value.services == [] {
      return [], Some(Crash("Run: no service described"));
    }
    var srv := desc.value.services[0];
    var chosen;
    log, chosen := ChooseTaskDefinition(api, local, opt, srv);
    if chosen.Failure? {
      return log, Some(chosen.error);
    }
    log, err := LaunchTask(api, local, opt, def.cluster, srv, chosen.value.0, chosen.value.1, log);
  }

  /** The task definition to run (run.go:58-82): registered from the file, or the service's current one. */
  method ChooseTaskDefinition(api: Api, local: Local, opt: RunOption, srv: Service)
    returns (log: seq<Action>, chosen: Result<(string, TaskDefinition), Error>)
    ensures (log, chosen) == Source(api, local, opt, srv)
  {
    log := [];
    if |opt.taskDefinitionPath| > 0 {
      var loaded := local.loadTaskDefinition(opt.taskDefinitionPath);
      if loaded.Failure? {
        return [], Failure(ConfigFailed(loaded.error));
      }
      var input := TdToRegisterTaskDefinitionInput(loaded.value);
      log := [RegisterTaskDefinition(input)];
      var registered := api.registerTaskDefinition(input);
      if registered.Failure? {
        return log, Failure(ApiError("RegisterTaskDefinition", registered.error));
      }
      if registered.value.taskDefinitionArn.None? {
        return log, Failure(Crash("RegisterTaskDefinition: nil TaskDefinitionArn"));
      }
      return log, Success((registered.value.taskDefinitionArn.value, registered.value));
    }
    if srv.taskDefinition.None? {
      return [], Failure(Crash("Run: nil TaskDefinition"));
    }
    var tdArn := srv.taskDefinition.value;
    var described := api.describeTaskDefinition(tdArn);
    if described.Failure? {
      return [], Failure(ApiError("DescribeTaskDefinition", described.error));
    }
    return [], Success((tdArn, described.value));
  }

  /** From the chosen task definition on (run.go:74-124): the container, the overrides built in place, RunTask, the wait. */
  method LaunchTask(api: Api, local: Local, opt: RunOption, cluster: string, srv: Service,
                    tdArn: string, td: TaskDefinition, log0: seq<Action>)
    returns (log: seq<Action>, err: Option<Error>)
    ensures Trace(log, err) == Launch(api, local, opt, cluster, srv, tdArn, td, log0)
  {
    log := log0;
    var selected := ContainerOf(td, opt.containerName);
    if selected.Failure? {
      return log, Some(selected.error);
    }
    if selected.value.None? {
      return log, Some(Crash("Run: nil container"));
    }
    var container := selected.value.value;
    if container.name.None? {
      return log, Some(Crash("Run: nil container name"));
    }

    var ov := EmptyTaskOverride;
    if opt.overrides != "" {
      var parsed := local.parseOverrides(opt.overrides);
      if parsed.Failure? {
        return log, Some(InvalidOverrides(parsed.error));
      }
      ov := parsed.value;
    }
    if opt.command.Some? {
      ov := ov.(containerOverrides := [ContainerOverride(container.name, opt.command.value)]);
    }

    var input := RunTaskInputOf(srv, tdArn, opt.count, ov);
    log := log + [RunTask(input)];
    var started := StartedTask(api.runTask(input));
    if started.Failure? {
      return log, Some(started.error);
    }
    var task := started.value;

    if !opt.noWait {
      var waited := WaitRunTask(api, cluster, task, container, log);
      log := waited.log;
      if waited.err.Some? {
        return log, waited.err;
      }
    }

    err := DescribeTaskStatus(api, cluster, task.taskArn, container.name.value);
  }

  // ---------------------------------------------------------------------------
  // Properties

  /** A service missing from the configuration is reported before anything is described or issued. */
  lemma UndefinedServiceFirst(api: Api, local: Local, def: Definition, name: string, opt: RunOption)
    requires name !in def.nameToSrv
    ensures RunPlan(api, local, Success(def), name, opt) == Trace([], Some(UndefinedService(name)))
  {
  }

  /** The service Run starts from: configured, and the first one describe returns. */
  ghost predicate Described(api: Api, def: Definition, name: string, srv: Service) {
    && name in def.nameToSrv
    && api.describeServices(def.cluster, [name]).Success?
    && api.describeServices(def.cluster, [name]).value.services != []
    && api.describeServices(def.cluster, [name]).value.services[0] == srv
  }

  /** Choosing the task definition logs the registration, and only when a path is given. */
  lemma SourceLog(api: Api, local: Local, opt: RunOption, srv: Service)
    ensures var (log, chosen) := Source(api, local, opt, srv);
      && |log| <= 1
      && (log != [] ==> |opt.taskDefinitionPath| > 0 && log[0].RegisterTaskDefinition?)
      && (|opt.taskDefinitionPath| > 0 && chosen.Success? ==> |log| == 1)
  {
  }

  /** After the task started: at most the wait is added, and it is added on success unless `noWait`. */
  lemma FinishLog(api: Api, cluster: string, noWait: bool, c: ContainerDefinition, task: Task, log: seq<Action>)
    requires c.name.Some?
    ensures var u := Finish(api, cluster, noWait, c, task, log);
      && (u.log == log || (!noWait && u.log == log + [WaitTaskStopped(cluster, task.taskArn)]))
      && (!noWait && u.err.None? ==> u.log == log + [WaitTaskStopped(cluster, task.taskArn)])
  {
    var waited := WaitRunTask(api, cluster, task, c, log);
    assert waited.log == log || waited.log == log + [WaitTaskStopped(cluster, task.taskArn)];
    assert waited.err.None? ==> waited.log == log + [WaitTaskStopped(cluster, task.taskArn)];
  }

  /** From the chosen task definition on: at most RunTask and then the wait are added. */
  lemma LaunchLog(api: Api, local: Local, opt: RunOption, cluster: string, srv: Service,
                  taskDefinitionArn: string, td: TaskDefinition, log: seq<Action>)
    ensures var u := Launch(api, local, opt, cluster, srv, taskDefinitionArn, td, log);
      && |log| <= |u.log| <= |log| + 2 && u.log[..|log|] == log
      && (|u.log| > |log| ==> u.log[|log|].RunTask? && u.log[|log|].run.taskDefinition == taskDefinitionArn)
      && (|u.log| == |log| + 2 ==> !opt.noWait && u.log[|log| + 1].WaitTaskStopped?)
      && (u.err.None? ==> |u.log| == |log| + (if opt.noWait then 1 else 2))
  {
    match SelectContainer(td, opt.containerName)
    case Failure(e) =>
    case Success(None) =>
    case Success(Some(c)) =>
      if c.name.Some? {
        match Overrides(local, opt, c.name.value)
        case Failure(e) =>
        case Success(ov) =>
          var input := RunTaskInputOf(srv, taskDefinitionArn, opt.count, ov);
          var ran := log + [RunTask(input)];
          match StartedTask(api.runTask(input))
          case Failure(e) =>
          case Success(task) =>
            FinishLog(api, cluster, opt.noWait, c, task, ran);
      }
  }

  /**
    A log of Run's shape: `reg` registrations (zero or one), then RunTask,
    then the wait for the task to stop, each possibly cut short; no wait with
    `noWait`.
   */
  ghost predicate RunShaped(log: seq<Action>, reg: nat, noWait: bool) {
    && |log| <= reg + 2
    && (forall k :: 0 <= k < |log| ==> (log[k].RegisterTaskDefinition? <==> k < reg))
    && (forall k :: 0 <= k < |log| ==> (log[k].RunTask? <==> k == reg))
    && (forall k :: 0 <= k < |log| ==> (log[k].WaitTaskStopped? <==> k == reg + 1))
    && (noWait ==> |log| <= reg + 1)
  }

  /**
    The calls Run issues, in order: the registration when a path is given,
    then RunTask, then the wait for the task to stop, which `noWait` leaves
    out and a successful run always has.
   */
  lemma RunLogShape(api: Api, local: Local, def: Definition, name: string, opt: RunOption)
    ensures var t := RunPlan(api, local, Success(def), name, opt); var reg := if |opt.taskDefinitionPath| > 0 then 1 else 0;
      && RunShaped(t.log, reg, opt.noWait)
      && (t.err.None? ==> |t.log| == reg + (if opt.noWait then 1 else 2))
  {
    var reg := if |opt.taskDefinitionPath| > 0 then 1 else 0;
    if name in def.nameToSrv && api.describeServices(def.cluster, [name]).Success?
       && api.describeServices(def.cluster, [name]).value.services != [] {
      var srv := api.describeServices(def.cluster, [name]).value.services[0];
      var (log, chosen) := Source(api, local, opt, srv);
      SourceLog(api, local, opt, srv);
      if chosen.Success? {
        var u := Launch(api, local, opt, def.cluster, srv, chosen.value.0, chosen.value.1, log);
        LaunchLog(api, local, opt, def.cluster, srv, chosen.value.0, chosen.value.1, log);
        LaunchShaped(log, u.log, reg, opt.noWait);
      } else {
        SourceShaped(log, reg, opt.noWait);
      }
    }
  }

  lemma SourceShaped(log: seq<Action>, reg: nat, noWait: bool)
    requires |log| <= 1 && reg <= 1 && (log != [] ==> reg == 1 && log[0].RegisterTaskDefinition?)
    ensures RunShaped(log, reg, noWait)
  {
  }

  lemma LaunchShaped(log: seq<Action>, u: seq<Action>, reg: nat, noWait: bool)
    requires |log| == reg <= 1 && (reg == 1 ==> log[0].RegisterTaskDefinition?)
    requires |log| <= |u| <= |log| + 2 && u[..|log|] == log
    requires |u| > |log| ==> u[|log|].RunTask?
    requires |u| == |log| + 2 ==> !noWait && u[|log| + 1].WaitTaskStopped?
    ensures RunShaped(u, reg, noWait)
  {
    if reg == 1 {
      assert u[0] == u[..|log|][0];
    }
  }

  /**
    The RunTask input Launch sends: the service's placement and network
    settings, the chosen ARN and count, and the overrides of the JSON, whose
    container overrides a command replaces by exactly one, for the selected
    container with that command.
   */
  lemma LaunchInput(api: Api, local: Local, opt: RunOption, cluster: string, srv: Service,
                    taskDefinitionArn: string, td: TaskDefinition, log: seq<Action>)
    ensures var u := Launch(api, local, opt, cluster, srv, taskDefinitionArn, td, log);
      |u.log| > |log| ==>
        && u.log[|log|].RunTask?
        && var run := u.log[|log|].run;
        && run == RunTaskInputOf(srv, taskDefinitionArn, opt.count, run.overrides)
        && ParsedOverrides(local, opt).Success?
        && (opt.command.None? ==> run.overrides == ParsedOverrides(local, opt).value)
        && (opt.command.Some? ==>
              && run.overrides.taskRoleArn == ParsedOverrides(local, opt).value.taskRoleArn
              && |run.overrides.containerOverrides| == 1
              && run.overrides.containerOverrides[0].command == opt.command.value
              && run.overrides.containerOverrides[0].name.Some?
              && (opt.containerName != "" ==> run.overrides.containerOverrides[0].name == Some(opt.containerName)))
  {
    LaunchLog(api, local, opt, cluster, srv, taskDefinitionArn, td, log);
    match SelectContainer(td, opt.containerName)
    case Failure(e) =>
    case Success(None) =>
    case Success(Some(c)) =>
      if c.name.Some? {
        match Overrides(local, opt, c.name.value)
        case Failure(e) =>
        case Success(ov) =>
          var input := RunTaskInputOf(srv, taskDefinitionArn, opt.count, ov);
          var ran := log + [RunTask(input)];
          match StartedTask(api.runTask(input))
          case Failure(e) =>
          case Success(task) =>
            FinishLog(api, cluster, opt.noWait, c, task, ran);
      }
  }

  /**
    The task Run starts: it runs on a definition registered from the file when
    a path is given, otherwise on the described service's current one, and its
    overrides are built as LaunchInput states.
   */
  lemma RunTaskDefinition(api: Api, local: Local, def: Definition, name: string, opt: RunOption, k: nat)
    requires var t := RunPlan(api, local, Success(def), name, opt); k < |t.log| && t.log[k].RunTask?
    ensures var t := RunPlan(api, local, Success(def), name, opt); var run := t.log[k].run;
      && name in def.nameToSrv
      && api.describeServices(def.cluster, [name]).Success?
      && api.describeServices(def.cluster, [name]).value.services != []
      && var srv := api.describeServices(def.cluster, [name]).value.services[0];
      && run == RunTaskInputOf(srv, run.taskDefinition, opt.count, run.overrides)
      && (|opt.taskDefinitionPath| > 0 ==>
            && k == 1
            && local.loadTaskDefinition(opt.taskDefinitionPath).Success?
            && var input := TdToRegisterTaskDefinitionInput(local.loadTaskDefinition(opt.taskDefinitionPath).value);
            && t.log[0] == RegisterTaskDefinition(input)
            && api.registerTaskDefinition(input).Success?
            && api.registerTaskDefinition(input).value.taskDefinitionArn == Some(run.taskDefinition))
      && (|opt.taskDefinitionPath| == 0 ==> k == 0 && srv.taskDefinition == Some(run.taskDefinition))
  {
    RunLogShape(api, local, def, name, opt);
    var srv := api.describeServices(def.cluster, [name]).value.services[0];
    var (log, chosen) := Source(api, local, opt, srv);
    SourceLog(api, local, opt, srv);
    match chosen
    case Failure(e) =>
    case Success((arn, td)) =>
      LaunchLog(api, local, opt, def.cluster, srv, arn, td, log);
      LaunchInput(api, local, opt, def.cluster, srv, arn, td, log);
  }

  /** Malformed overrides JSON stops Run with an error before RunTask. */
  lemma MalformedOverridesStop(api: Api, local: Local, def: Definition, name: string, opt: RunOption)
    requires opt.overrides != "" && local.parseOverrides(opt.overrides).Failure?
    ensures var t := RunPlan(api, local, Success(def), name, opt);
      t.err.Some? && forall k :: 0 <= k < |t.log| ==> !t.log[k].RunTask?
  {
    RunLogShape(api, local, def, name, opt);
    var t := RunPlan(api, local, Success(def), name, opt);
    if k :| 0 <= k < |t.log| && t.log[k].RunTask? {
      RunTaskDefinition(api, local, def, name, opt, k);
      var srv := api.describeServices(def.cluster, [name]).value.services[0];
      var (log, chosen) := Source(api, local, opt, srv);
      LaunchInput(api, local, opt, def.cluster, srv, chosen.value.0, chosen.value.1, log);
    }
  }
}
