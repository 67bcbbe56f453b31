/**
  The pure helpers of ecs_util.go: ARN names, fixed-width chunking of event
  lines, the projections of a definition onto an API input, the log stream of
  a task, the status check of a finished task and the log cursor.
 */
module EcsUtil {
  import opened Wrappers
  import opened Text
  import opened Ecs
  import opened Client

  // ---------------------------------------------------------------------------
  // Names

  /** arnToName: the text after the last '/', all of `arn` when it has none. */
  function ArnToName(arn: string): (name: string)
    ensures |name| <= |arn| && name == arn[|arn| - |name|..]
    ensures '/' !in name
    ensures |name| < |arn| ==> arn[|arn| - |name| - 1] == '/'
  {
    LastOfSplit(arn, '/');
    LastSegment(arn, '/')
  }

  /** The name is the one suffix with those properties; an ARN without '/' is its own name. */
  lemma ArnToNameUnique(arn: string, name: string)
    requires |name| <= |arn| && name == arn[|arn| - |name|..] && '/' !in name
    requires |name| < |arn| ==> arn[|arn| - |name| - 1] == '/'
    ensures ArnToName(arn) == name
  {
    LastSegmentUnique(arn, '/', name);
  }

  /** The name of `prefix/name` is `name`, whatever the prefix holds. */
  lemma ArnToNameAfterSlash(prefix: string, name: string)
    requires '/' !in name
    ensures ArnToName(prefix + "/" + name) == name
  {
    LastSegmentAfter(prefix, '/', name);
    LastSegmentUnique(name, '/', name);
  }

  // ---------------------------------------------------------------------------
  // Chunking of event lines (formatEvent, formatLogEvent)

  /** The chunks written one after the other. */
  function Concat<T>(lines: seq<seq<T>>): (s: seq<T>)
  {
    if lines == [] then [] else Concat(lines[..|lines| - 1]) + lines[|lines| - 1]
  }

  lemma ChunkBound(len: nat, chars: nat, i: nat)
    requires chars > 0 && i <= len / chars
    ensures i * chars <= len
  {
    assert i * chars <= (len / chars) * chars;
  }

  /**
    Splits `line` into `len/chars + 1` chunks: every chunk but the last has
    exactly `chars` elements and the last has the rest, which is empty when
    the length is a multiple of `chars`. The source cuts a Go string, so the
    elements are its bytes.
   */
  method Chunk<T>(line: seq<T>, chars: nat) returns (lines: seq<seq<T>>)
    requires chars > 0
    ensures |lines| == |line| / chars + 1
    ensures Concat(lines) == line
    ensures forall i :: 0 <= i < |lines| - 1 ==> |lines[i]| == chars
    ensures |lines[|lines| - 1]| == |line| % chars
  {
    lines := [];
    var n := |line| / chars + 1;
    var i := 0;
    while i < n
      invariant 0 <= i <= n
      invariant |lines| == i
      invariant i * chars <= |line| || i == n
      invariant i < n ==> Concat(lines) == line[..i * chars]
      invariant i == n ==> Concat(lines) == line
      invariant forall k :: 0 <= k < i && k < n - 1 ==> |lines[k]| == chars
      invariant i == n ==> |lines[n - 1]| == |line| % chars
    {
      ChunkBound(|line|, chars, i);
      var piece;
      if i == n - 1 {
        piece := line[i * chars..];
        assert line[..i * chars] + piece == line;
      } else {
        ChunkBound(|line|, chars, i + 1);
        piece := line[i * chars..(i + 1) * chars];
        assert line[..i * chars] + piece == line[..(i + 1) * chars];
      }
      assert (lines + [piece])[..i] == lines;
      lines := lines + [piece];
      i := i + 1;
    }
  }

  /**
    formatEvent: the event's creation time (already formatted), a tab, the
    message, cut into chunks of `chars` bytes of its UTF-8 encoding. A chunk
    may end inside a multi-byte character.
   */
  method FormatEvent(createdAt: string, message: string, chars: nat) returns (lines: seq<seq<byte>>)
    requires chars > 0
    ensures Concat(lines) == Utf8(createdAt) + Utf8(" \t") + Utf8(message)
    ensures |lines| == |Utf8(createdAt + " \t" + message)| / chars + 1
    ensures forall i :: 0 <= i < |lines| - 1 ==> |lines[i]| == chars
  {
    Utf8Append(createdAt + " \t", message);
    Utf8Append(createdAt, " \t");
    lines := Chunk(Utf8(createdAt + " \t" + message), chars);
  }

  /** formatLogEvent: the same, after a per-stream prefix, for a log event's time stamp. */
  method FormatLogEvent(prefix: string, timestamp: string, message: string, chars: nat) returns (lines: seq<seq<byte>>)
    requires chars > 0
    ensures Concat(lines) == Utf8(prefix) + Utf8(timestamp) + Utf8(" \t") + Utf8(message)
    ensures |lines| == |Utf8(prefix + timestamp + " \t" + message)| / chars + 1
    ensures forall i :: 0 <= i < |lines| - 1 ==> |lines[i]| == chars
  {
    Utf8Append(prefix + timestamp + " \t", message);
    Utf8Append(prefix + timestamp, " \t");
    Utf8Append(prefix, timestamp);
    lines := Chunk(Utf8(prefix + timestamp + " \t" + message), chars);
  }

  /**
    A line holding a non-ASCII character is longer in bytes than in
    characters, so it is cut at a byte count its characters do not reach
    and a chunk can end inside a character (see `HiraganaA`).
   */
  lemma {:induction false} WiderInBytes(line: string, k: nat)
    requires k < |line| && line[k] as int >= 0x80
    ensures |Utf8(line)| > |line|
  {
    Utf8Length(line);
  }

  /** "あ" is the three bytes E3 81 82, so at width 2 its line is two chunks and the first ends inside it. */
  lemma HiraganaA()
    ensures Utf8("\U{3042}") == [0xE3, 0x81, 0x82]
    ensures |Utf8("\U{3042}")| / 2 + 1 == 2 && |"\U{3042}"| / 2 + 1 == 1
  {
  }

  // ---------------------------------------------------------------------------
  // Projections onto API inputs

  /** tdToRegisterTaskDefinitionInput: every field a client may set. */
  function TdToRegisterTaskDefinitionInput(td: TaskDefinition): (input: RegisterTaskDefinitionInput)
    ensures input.containerDefinitions == td.containerDefinitions && input.family == td.family
  {
    RegisterTaskDefinitionInput(
      td.containerDefinitions, td.cpu, td.executionRoleArn, td.family, td.memory, td.networkMode,
      td.placementConstraints, td.requiresCompatibilities, td.taskRoleArn, td.proxyConfiguration, td.volumes)
  }

  /** The fields ECS assigns on registration, which a register input does not carry. */
  function Assigned(td: TaskDefinition): TaskDefinition {
    td.(taskDefinitionArn := None, revision := None, status := None)
  }

  /** Two definitions register alike exactly when they differ only in what ECS assigns. */
  lemma RegisterInputDeterminesDefinition(a: TaskDefinition, b: TaskDefinition)
    ensures TdToRegisterTaskDefinitionInput(a) == TdToRegisterTaskDefinitionInput(b) <==> Assigned(a) == Assigned(b)
  {
  }

  /**
    srvToUpdateServiceInput (and svToUpdateServiceInput in deploy.go): the
    attributes an UpdateService call may change. The service, cluster, task
    definition, count and force flag are left unset for the caller to fill.
   */
  function SrvToUpdateServiceInput(srv: Service): (input: UpdateServiceInput)
    ensures input.service.None? && input.cluster.None? && input.taskDefinition.None?
    ensures input.desiredCount.None? && input.forceNewDeployment.None?
  {
    EmptyUpdateServiceInput.(
      capacityProviderStrategy := srv.capacityProviderStrategy,
      deploymentConfiguration := srv.deploymentConfiguration,
      healthCheckGracePeriodSeconds := srv.healthCheckGracePeriodSeconds,
      networkConfiguration := srv.networkConfiguration,
      placementConstraints := srv.placementConstraints,
      placementStrategy := srv.placementStrategy,
      platformVersion := srv.platformVersion)
  }

  /** The fields of a service that an UpdateService call does not carry, cleared. */
  function Updatable(srv: Service): Service {
    EmptyService.(
      capacityProviderStrategy := srv.capacityProviderStrategy,
      deploymentConfiguration := srv.deploymentConfiguration,
      healthCheckGracePeriodSeconds := srv.healthCheckGracePeriodSeconds,
      networkConfiguration := srv.networkConfiguration,
      placementConstraints := srv.placementConstraints,
      placementStrategy := srv.placementStrategy,
      platformVersion := srv.platformVersion)
  }

  /** Two services give the same update input exactly when they agree on the seven updatable attributes. */
  lemma UpdateInputDeterminesAttributes(a: Service, b: Service)
    ensures SrvToUpdateServiceInput(a) == SrvToUpdateServiceInput(b) <==> Updatable(a) == Updatable(b)
  {
    if Updatable(a) == Updatable(b) {
      assert Updatable(a).placementStrategy == a.placementStrategy;
    }
  }

  /**
    The input UpdateServiceTask sends: the service by name in the cluster,
    switched to a task definition, with an optional desired count.
   */
  function UpdateServiceTaskInput(cluster: string, name: string, taskDefinitionArn: string, count: Option<int>, force: bool)
    : (input: UpdateServiceInput)
    ensures input.service == Some(name) && input.cluster == Some(cluster)
    ensures input.taskDefinition == Some(taskDefinitionArn) && input.forceNewDeployment == Some(force)
    ensures input.desiredCount == count
    ensures input.(service := None, cluster := None, taskDefinition := None, desiredCount := None, forceNewDeployment := None)
      == EmptyUpdateServiceInput
  {
    EmptyUpdateServiceInput.(
      service := Some(name), cluster := Some(cluster), taskDefinition := Some(taskDefinitionArn),
      desiredCount := count, forceNewDeployment := Some(force))
  }

  /**
    The input UpdateServiceAttributes sends: the updatable attributes of the
    configured service, addressed by name in the cluster; the task definition
    is left as it is.
   */
  function UpdateServiceAttributesInput(cluster: string, name: string, srv: Service, force: bool)
    : (input: UpdateServiceInput)
    ensures input.service == Some(name) && input.cluster == Some(cluster)
    ensures input.taskDefinition.None? && input.desiredCount.None? && input.forceNewDeployment == Some(force)
    ensures input.(service := None, cluster := None, forceNewDeployment := None) == SrvToUpdateServiceInput(srv)
  {
    SrvToUpdateServiceInput(srv).(forceNewDeployment := Some(force), service := Some(name), cluster := Some(cluster))
  }

  /** equalString: a nil string equals only the empty string. */
  function EqualString(a: Option<string>, b: string): (r: bool)
    ensures a.None? ==> (r <==> b == "")
    ensures a.Some? ==> (r <==> a.value == b)
  {
    if a.None? then b == "" else a.value == b
  }

  // ---------------------------------------------------------------------------
  // Log stream of a task (GetLogInfo)

  /**
    GetLogInfo: the log group and the stream `prefix/containerName/taskID` of a
    container of a task. A container without a log configuration, without the
    `awslogs-stream-prefix` or `awslogs-group` option, or without a name is a
    nil dereference.
   */
  function GetLogInfo(taskArn: string, c: ContainerDefinition): (r: Result<(string, string), Error>)
    ensures r.Success? <==>
      && c.logConfiguration.Some? && c.name.Some?
      && "awslogs-stream-prefix" in c.logConfiguration.value.options
      && "awslogs-group" in c.logConfiguration.value.options
    ensures r.Success? ==> r.value.0 == c.logConfiguration.value.options["awslogs-group"]
    ensures r.Success? ==> LastSegment(r.value.1, '/') == ArnToName(taskArn)
  {
    var taskId := ArnToName(taskArn);
    if c.logConfiguration.None? then Failure(Crash("GetLogInfo: nil LogConfiguration"))
    else
      var options := c.logConfiguration.value.options;
      if "awslogs-stream-prefix" !in options then Failure(Crash("GetLogInfo: no awslogs-stream-prefix"))
      else if c.name.None? then Failure(Crash("GetLogInfo: nil container name"))
      else if "awslogs-group" !in options then Failure(Crash("GetLogInfo: no awslogs-group"))
      else
        var stream := Join([options["awslogs-stream-prefix"], c.name.value, taskId], '/');
        LastSegmentOfJoin([options["awslogs-stream-prefix"], c.name.value, taskId], '/');
        Success((options["awslogs-group"], stream))
  }

  /** The stream splits back into prefix, container name and task ID when the first two have no '/'. */
  lemma LogStreamParts(taskArn: string, c: ContainerDefinition)
    requires GetLogInfo(taskArn, c).Success?
    requires '/' !in c.logConfiguration.value.options["awslogs-stream-prefix"] && '/' !in c.name.value
    ensures Split(GetLogInfo(taskArn, c).value.1, '/')
      == [c.logConfiguration.value.options["awslogs-stream-prefix"], c.name.value, ArnToName(taskArn)]
  {
    SplitJoin([c.logConfiguration.value.options["awslogs-stream-prefix"], c.name.value, ArnToName(taskArn)], '/');
  }

  // ---------------------------------------------------------------------------
  // Status of a finished task (DescribeTaskStatus)

  /** The index of the first container named `name`, if any. */
  function FirstNamed(cs: seq<Container>, name: string): (r: Option<nat>)
    ensures r.Some? ==> r.value < |cs| && cs[r.value].name == name
    ensures r.Some? ==> forall k :: 0 <= k < r.value ==> cs[k].name != name
    ensures r.None? ==> forall k :: 0 <= k < |cs| ==> cs[k].name != name
  {
    if cs == [] then None
    else if cs[0].name == name then Some(0)
    else match FirstNamed(cs[1..], name)
      case None => None
      case Some(k) => Some(k + 1)
  }

  /** A stopped container fails on a non-zero exit code, or else on a stop reason. */
  function ContainerStatus(c: Container): (r: Option<Error>)
    ensures r.Some? <==> (c.exitCode.Some? && c.exitCode.value != 0) || c.reason.Some?
    ensures r.Some? ==> r.value == ContainerFailed(c.name,
      if c.exitCode.Some? && c.exitCode.value != 0 then c.exitCode else None, c.reason)
  {
    if c.exitCode.Some? && c.exitCode.value != 0 then Some(ContainerFailed(c.name, c.exitCode, c.reason))
    else if c.reason.Some? then Some(ContainerFailed(c.name, None, c.reason))
    else None
  }

  /**
    What DescribeTaskStatus reports for a describe result: a failure entry is
    an error; otherwise the status of the first container named as the
    watched one, or of the first container when none is. No task, or a task
    without containers, is an index out of range.
   */
  function TaskStatus(out: Result<DescribeTasksOutput, string>, watch: string): Option<Error> {
    if out.Failure? then Some(ApiError("DescribeTasks", out.error))
    else if |out.value.failures| > 0 then
      Some(DescribeTaskFailed(out.value.failures[0].arn, out.value.failures[0].reason))
    else if |out.value.tasks| == 0 then Some(Crash("DescribeTaskStatus: no task"))
    else
      var cs := out.value.tasks[0].containers;
      match FirstNamed(cs, watch)
      case Some(k) => ContainerStatus(cs[k])
      case None => if |cs| == 0 then Some(Crash("DescribeTaskStatus: no container")) else ContainerStatus(cs[0])
  }

  /** DescribeTaskStatus: the search loop, proved to report `TaskStatus`. */
  method DescribeTaskStatus(api: Api, cluster: string, taskArn: string, watch: string) returns (r: Option<Error>)
    ensures r == TaskStatus(api.describeTasks(cluster, taskArn), watch)
  {
    var out := api.describeTasks(cluster, taskArn);
    if out.Failure? {
      return Some(ApiError("DescribeTasks", out.error));
    }
    if |out.value.failures| > 0 {
      var f := out.value.failures[0];
      return Some(DescribeTaskFailed(f.arn, f.reason));
    }
    if |out.value.tasks| == 0 {
      return Some(Crash("DescribeTaskStatus: no task"));
    }
    var cs := out.value.tasks[0].containers;
    var picked: Option<nat> := None;
    var i := 0;
    while i < |cs|
      invariant 0 <= i <= |cs|
      invariant picked.None? ==> forall k :: 0 <= k < i ==> cs[k].name != watch
      invariant picked.Some? ==> picked == FirstNamed(cs, watch)
      decreases |cs| - i, if picked.None? then 1 else 0
    {
      if cs[i].name == watch {
        picked := Some(i);
        break;
      }
      i := i + 1;
    }
    if picked.None? {
      if |cs| == 0 {
        return Some(Crash("DescribeTaskStatus: no container"));
      }
      picked := Some(0);
    }
    r := ContainerStatus(cs[picked.value]);
  }

  /** The reported container is the first one with the watched name, else the first one. */
  lemma TaskStatusContainer(out: DescribeTasksOutput, watch: string, k: nat)
    requires |out.failures| == 0 && |out.tasks| > 0
    requires k < |out.tasks[0].containers|
    requires out.tasks[0].containers[k].name == watch
    requires forall j :: 0 <= j < k ==> out.tasks[0].containers[j].name != watch
    ensures TaskStatus(Success(out), watch) == ContainerStatus(out.tasks[0].containers[k])
  {
    var cs := out.tasks[0].containers;
    var f := FirstNamed(cs, watch);
    assert f.Some? by {
      assert cs[k].name == watch;
    }
    assert f.value <= k;
    assert cs[f.value].name == watch;
  }

  /** A task succeeds exactly when its reported container exited with code 0 or none, and has no reason. */
  lemma TaskStatusSucceeds(out: DescribeTasksOutput, watch: string)
    requires |out.failures| == 0 && |out.tasks| > 0 && |out.tasks[0].containers| > 0
    ensures var cs := out.tasks[0].containers;
      var c := if FirstNamed(cs, watch).Some? then cs[FirstNamed(cs, watch).value] else cs[0];
      TaskStatus(Success(out), watch).None? <==> (c.exitCode.None? || c.exitCode.value == 0) && c.reason.None?
  {
  }

  // ---------------------------------------------------------------------------
  // Log cursor (WatchLogs)

  /** After a batch of events, the next request starts 1ms after the last one; an empty batch keeps the cursor. */
  function NextCursor(ms: int, timestamps: seq<int>): (next: int)
    ensures timestamps == [] ==> next == ms
  {
    if timestamps == [] then ms else timestamps[|timestamps| - 1] + 1
  }

  /** Events are listed oldest first. */
  ghost predicate Ascending(ts: seq<int>) {
    forall i, j :: 0 <= i < j < |ts| ==> ts[i] <= ts[j]
  }

  /**
    A batch fetched from `ms` on moves the cursor forward past every event of
    the batch, so the next request (which starts at the cursor, inclusive)
    shows none of them again.
   */
  lemma CursorPassesBatch(ms: int, timestamps: seq<int>)
    requires Ascending(timestamps)
    requires forall i :: 0 <= i < |timestamps| ==> ms <= timestamps[i]
    ensures NextCursor(ms, timestamps) >= ms
    ensures timestamps != [] ==> NextCursor(ms, timestamps) > ms
    ensures forall i :: 0 <= i < |timestamps| ==> timestamps[i] < NextCursor(ms, timestamps)
  {
  }
}
