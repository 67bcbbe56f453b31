/**
  Logs (logs.go): the start time of the shown events, parsed from a relative
  form such as `30m`, `2h` or `7d`, and the log streams of the running tasks
  of a service, each shown with the prefix `[<task ID>] `.

  Instants are nanoseconds on a line (time.Time), and `now` is a parameter.
 */
module Logs {
  import opened Wrappers
  import opened Text
  import opened Ecs
  import opened Client
  import opened EcsUtil
  import opened Deploy
  import opened Run

  /** The units tried, in this order. */
  const Units: seq<string> := ["m", "h", "d"]

  datatype LogsOption = LogsOption(containerName: string, startTime: string, tail: bool)

  // ---------------------------------------------------------------------------
  // parseStartTime (logs.go:22-50)

  /** The first of `units` that ends `s`; "" when none does. */
  function FirstSuffix(units: seq<string>, s: string): (u: string)
    requires "" !in units
    ensures u != "" ==> u in units && HasSuffix(s, u)
    ensures u == "" ==> forall v <- units :: !HasSuffix(s, v)
  {
    if units == [] then ""
    else if HasSuffix(s, units[0]) then units[0]
    else FirstSuffix(units[1..], s)
  }

  /** The unit search loop of parseStartTime. */
  method FindUnit(startTime: string) returns (unit: string)
    ensures unit == FirstSuffix(Units, startTime)
  {
    unit := "";
    var i := 0;
    while i < |Units|
      invariant 0 <= i <= |Units|
      invariant FirstSuffix(Units, startTime) == FirstSuffix(Units[i..], startTime)
    {
      assert Units[i..][1..] == Units[i + 1..];
      if HasSuffix(startTime, Units[i]) {
        unit := Units[i];
        break;
      }
      i := i + 1;
    }
  }

  /**
    How far back `num` units reach, as a time.Duration in nanoseconds
    (time.Minute is 60e9, time.Hour 3600e9): int64 arithmetic that wraps
    (`-num`, `-num*24`, and the product with the unit).
   */
  function Offset(unit: string, num: int): int
    requires unit in Units
  {
    match unit
    case "m" => WrapInt64(60_000_000_000 * WrapInt64(-num))
    case "h" => WrapInt64(3_600_000_000_000 * WrapInt64(-num))
    case _ => WrapInt64(3_600_000_000_000 * WrapInt64(WrapInt64(-num) * 24))
  }

  /** What parseStartTime returns. */
  function StartTimeOf(startTime: string, now: int): Result<int, Error> {
    var unit := FirstSuffix(Units, startTime);
    if unit == "" then Failure(UnknownStartTimeFormat)
    else
      match Atoi(TrimSuffix(startTime, unit))
      case Failure(m) => Failure(InvalidNumber(m))
      case Success(num) => Success(now + Offset(unit, num))
  }

  /** parseStartTime. */
  method ParseStartTime(startTime: string, now: int) returns (r: Result<int, Error>)
    ensures r == StartTimeOf(startTime, now)
  {
    var unit := FindUnit(startTime);
    if unit != "" {
      var nums := TrimSuffix(startTime, unit);
      var num := Atoi(nums);
      if num.Failure? {
        return Failure(InvalidNumber(num.error));
      }
      var offset: int;
      match unit {
        case "m" => offset := WrapInt64(60_000_000_000 * WrapInt64(-num.value));
        case "h" => offset := WrapInt64(3_600_000_000_000 * WrapInt64(-num.value));
        case "d" => offset := WrapInt64(3_600_000_000_000 * WrapInt64(WrapInt64(-num.value) * 24));
      }
      return Success(now + offset);
    }
    return Failure(UnknownStartTimeFormat);
  }

  lemma HasSuffixChar(s: string, c: char)
    ensures HasSuffix(s, [c]) <==> |s| > 0 && s[|s| - 1] == c
  {
    if |s| > 0 {
      assert s[|s| - 1..] == [s[|s| - 1]];
    }
  }

  predicate IsUnitChar(c: char) {
    c == 'm' || c == 'h' || c == 'd'
  }

  /** With one-character units, the unit found is the last character of `s`, when that is a unit. */
  lemma {:induction false} FirstSuffixSingles(units: seq<string>, s: string)
    requires "" !in units
    requires forall v <- units :: |v| == 1
    ensures FirstSuffix(units, s) != "" <==> |s| > 0 && [s[|s| - 1]] in units
    ensures FirstSuffix(units, s) != "" ==> FirstSuffix(units, s) == [s[|s| - 1]]
    decreases |units|
  {
    if units != [] {
      var v := units[0];
      assert v == [v[0]];
      HasSuffixChar(s, v[0]);
      FirstSuffixSingles(units[1..], s);
      if |s| > 0 {
        assert [s[|s| - 1]] in units <==> [s[|s| - 1]] == v || [s[|s| - 1]] in units[1..];
      }
    }
  }

  /** The units are one character each. */
  lemma UnitsAreSingles()
    ensures "" !in Units && forall v <- Units :: |v| == 1
  {
  }

  /** A one-character string is a unit exactly when its character is m, h or d. */
  lemma UnitsAreChars(c: char)
    ensures [c] in Units <==> IsUnitChar(c)
  {
    assert [c] == "m" <==> c == 'm';
    assert [c] == "h" <==> c == 'h';
    assert [c] == "d" <==> c == 'd';
  }

  /** The unit is the last character, when it is one of m, h, d. */
  lemma UnitIsLastChar(s: string)
    ensures FirstSuffix(Units, s) != "" <==> |s| > 0 && IsUnitChar(s[|s| - 1])
    ensures FirstSuffix(Units, s) != "" ==> FirstSuffix(Units, s) == [s[|s| - 1]]
  {
    UnitsAreSingles();
    FirstSuffixSingles(Units, s);
    if |s| > 0 {
      UnitsAreChars(s[|s| - 1]);
    }
  }

  /** The unit is found and the number before it is read back. */
  lemma ReadsCount(n: int, u: char)
    requires IsUnitChar(u) && MinInt64 < n <= MaxInt64
    ensures FirstSuffix(Units, IntToString(n) + [u]) == [u]
    ensures Atoi(TrimSuffix(IntToString(n) + [u], [u])) == Success(n)
  {
    var s := IntToString(n) + [u];
    UnitIsLastChar(s);
    assert TrimSuffix(s, [u]) == IntToString(n);
    AtoiIntToString(n);
  }

  /** `<n>m` reaches n minutes back, for every n whose nanoseconds fit in int64. */
  lemma MinutesBack(n: int, now: int)
    requires -153_722_867 <= n <= 153_722_867
    ensures StartTimeOf(IntToString(n) + "m", now) == Success(now - n * 60_000_000_000)
  {
    ReadsCount(n, 'm');
  }

  /** `<n>h` reaches n hours back, for every n whose nanoseconds fit in int64. */
  lemma HoursBack(n: int, now: int)
    requires -2_562_047 <= n <= 2_562_047
    ensures StartTimeOf(IntToString(n) + "h", now) == Success(now - n * 3_600_000_000_000)
  {
    ReadsCount(n, 'h');
  }

  /** `<n>d` reaches n*24 hours back, for every n whose nanoseconds fit in int64. */
  lemma DaysBack(n: int, now: int)
    requires -106_751 <= n <= 106_751
    ensures StartTimeOf(IntToString(n) + "d", now) == Success(now - n * 24 * 3_600_000_000_000)
  {
    ReadsCount(n, 'd');
  }

  /** A start time without a known unit is an error. */
  lemma UnknownUnitFails(s: string, now: int)
    requires |s| == 0 || !IsUnitChar(s[|s| - 1])
    ensures StartTimeOf(s, now) == Failure(UnknownStartTimeFormat)
  {
    UnitIsLastChar(s);
  }

  /** A number part that Atoi rejects is an error. */
  lemma BadNumberFails(s: string, now: int)
    requires |s| > 0 && IsUnitChar(s[|s| - 1]) && Atoi(s[..|s| - 1]).Failure?
    ensures StartTimeOf(s, now).Failure? && StartTimeOf(s, now).error.InvalidNumber?
  {
    UnitIsLastChar(s);
  }

  /** The start time of the shown events: now when none is given (logs.go:53-62). */
  function StartOf(opt: LogsOption, now: int): (r: Result<int, Error>)
    ensures opt.startTime == "" ==> r == Success(now)
    ensures opt.startTime != "" ==> r == StartTimeOf(opt.startTime, now)
  {
    if opt.startTime == "" then Success(now) else StartTimeOf(opt.startTime, now)
  }

  // ---------------------------------------------------------------------------
  // Logs (logs.go:52-115)

  /** A stream whose events are shown: its group, its name, the line prefix and the start time. */
  datatype Shown = Shown(group: string, stream: string, prefix: string, start: int)

  /** The prefix of the lines of a stream: its last '/'-segment in brackets. */
  function Prefix(stream: string): string {
    "[" + LastSegment(stream, '/') + "] "
  }

  /** The stream of one task, or GetLogInfo's nil dereference. */
  function StreamOf(task: Task, c: ContainerDefinition, start: int): Result<Shown, Error> {
    match GetLogInfo(task.taskArn, c)
    case Failure(e) => Failure(e)
    case Success((group, stream)) => Success(Shown(group, stream, Prefix(stream), start))
  }

  /** The streams of `tasks` after those already `shown`, in order; the first failing task stops the loop. */
  function StreamsFrom(shown: seq<Shown>, tasks: seq<Task>, c: ContainerDefinition, start: int): Result<seq<Shown>, Error>
    decreases |tasks|
  {
    if tasks == [] then Success(shown)
    else
      match StreamOf(tasks[0], c, start)
      case Failure(e) => Failure(e)
      case Success(x) => StreamsFrom(shown + [x], tasks[1..], c, start)
  }

  /** The loop over the tasks. */
  method ShowStreams(tasks: seq<Task>, c: ContainerDefinition, start: int) returns (r: Result<seq<Shown>, Error>)
    ensures r == StreamsFrom([], tasks, c, start)
  {
    var shown: seq<Shown> := [];
    var i := 0;
    while i < |tasks|
      invariant 0 <= i <= |tasks|
      invariant StreamsFrom([], tasks, c, start) == StreamsFrom(shown, tasks[i..], c, start)
    {
      assert tasks[i..][1..] == tasks[i + 1..];
      var info := StreamOf(tasks[i], c, start);
      if info.Failure? {
        return Failure(info.error);
      }
      shown := shown + [info.value];
      i := i + 1;
    }
    return Success(shown);
  }

  /** The streams of `tasks`, in order, when every task has one. */
  function Streams(tasks: seq<Task>, c: ContainerDefinition, start: int): seq<Shown>
    requires forall i :: 0 <= i < |tasks| ==> StreamOf(tasks[i], c, start).Success?
    decreases |tasks|
  {
    if tasks == [] then []
    else [StreamOf(tasks[0], c, start).value] + Streams(tasks[1..], c, start)
  }

  /** The `i`-th stream is the `i`-th task's. */
  lemma {:induction false} StreamsAt(tasks: seq<Task>, c: ContainerDefinition, start: int, i: nat)
    requires forall i :: 0 <= i < |tasks| ==> StreamOf(tasks[i], c, start).Success?
    requires i < |tasks|
    ensures |Streams(tasks, c, start)| == |tasks|
    ensures Streams(tasks, c, start)[i] == StreamOf(tasks[i], c, start).value
    decreases |tasks|
  {
    if i > 0 {
      StreamsAt(tasks[1..], c, start, i - 1);
    } else if |tasks| > 1 {
      StreamsAt(tasks[1..], c, start, 0);
    }
  }

  /** A loop that finishes has a stream for every task and appends them in order. */
  lemma {:induction false} StreamsAll(shown: seq<Shown>, tasks: seq<Task>, c: ContainerDefinition, start: int)
    requires StreamsFrom(shown, tasks, c, start).Success?
    ensures forall i :: 0 <= i < |tasks| ==> StreamOf(tasks[i], c, start).Success?
    ensures StreamsFrom(shown, tasks, c, start).value == shown + Streams(tasks, c, start)
    decreases |tasks|
  {
    if tasks != [] {
      var x := StreamOf(tasks[0], c, start).value;
      StreamsAll(shown + [x], tasks[1..], c, start);
      StreamsCons(shown, tasks, c, start);
    }
  }

  /** One step of `StreamsAll`: the first task's stream goes in front of the others'. */
  lemma StreamsCons(shown: seq<Shown>, tasks: seq<Task>, c: ContainerDefinition, start: int)
    requires tasks != [] && StreamOf(tasks[0], c, start).Success?
    requires forall i :: 0 <= i < |tasks[1..]| ==> StreamOf(tasks[1..][i], c, start).Success?
    ensures forall i :: 0 <= i < |tasks| ==> StreamOf(tasks[i], c, start).Success?
    ensures shown + [StreamOf(tasks[0], c, start).value] + Streams(tasks[1..], c, start) == shown + Streams(tasks, c, start)
  {
    EveryStream(tasks, c, start);
    var x := StreamOf(tasks[0], c, start).value;
    var rest := Streams(tasks[1..], c, start);
    assert Streams(tasks, c, start) == [x] + rest;
    assert shown + [x] + rest == shown + ([x] + rest);
  }

  lemma EveryStream(tasks: seq<Task>, c: ContainerDefinition, start: int)
    requires tasks != [] && StreamOf(tasks[0], c, start).Success?
    requires forall i :: 0 <= i < |tasks[1..]| ==> StreamOf(tasks[1..][i], c, start).Success?
    ensures forall i :: 0 <= i < |tasks| ==> StreamOf(tasks[i], c, start).Success?
  {
    forall i | 0 < i < |tasks|
      ensures StreamOf(tasks[i], c, start).Success?
    {
      assert tasks[i] == tasks[1..][i - 1];
    }
  }

  /** The stream of one task: its group, `<awslogs-stream-prefix>/<container>/<task ID>`, and the prefix `[<task ID>] `. */
  lemma StreamOfShown(task: Task, c: ContainerDefinition, start: int)
    requires StreamOf(task, c, start).Success?
    ensures var x := StreamOf(task, c, start).value;
      && GetLogInfo(task.taskArn, c).Success?
      && x.prefix == "[" + ArnToName(task.taskArn) + "] "
      && x.start == start
      && x.group == c.logConfiguration.value.options["awslogs-group"]
      && x.stream == Join([c.logConfiguration.value.options["awslogs-stream-prefix"], c.name.value, ArnToName(task.taskArn)], '/')
  {
  }

  /**
    Each task's stream is shown from the start time with the prefix
    `[<task ID>] `, in the order the tasks are listed, and the stream is
    `<awslogs-stream-prefix>/<container>/<task ID>`.
   */
  lemma StreamsPrefixed(shown: seq<Shown>, tasks: seq<Task>, c: ContainerDefinition, start: int)
    requires StreamsFrom(shown, tasks, c, start).Success?
    ensures var all := StreamsFrom(shown, tasks, c, start).value;
      && |all| == |shown| + |tasks| && all[..|shown|] == shown
      && forall i :: 0 <= i < |tasks| ==>
           && GetLogInfo(tasks[i].taskArn, c).Success?
           && all[|shown| + i].prefix == "[" + ArnToName(tasks[i].taskArn) + "] "
           && all[|shown| + i].start == start
           && all[|shown| + i].group == c.logConfiguration.value.options["awslogs-group"]
           && all[|shown| + i].stream == Join([c.logConfiguration.value.options["awslogs-stream-prefix"], c.name.value, ArnToName(tasks[i].taskArn)], '/')
  {
    StreamsAll(shown, tasks, c, start);
    var all := StreamsFrom(shown, tasks, c, start).value;
    if tasks != [] {
      StreamsAt(tasks, c, start, 0);
    }
    assert all[..|shown|] == shown;
    forall i | 0 <= i < |tasks|
      ensures && GetLogInfo(tasks[i].taskArn, c).Success?
           && all[|shown| + i].prefix == "[" + ArnToName(tasks[i].taskArn) + "] "
           && all[|shown| + i].start == start
           && all[|shown| + i].group == c.logConfiguration.value.options["awslogs-group"]
           && all[|shown| + i].stream == Join([c.logConfiguration.value.options["awslogs-stream-prefix"], c.name.value, ArnToName(tasks[i].taskArn)], '/')
    {
      StreamOfShown(tasks[i], c, start);
      StreamsAt(tasks, c, start, i);
      assert all[|shown| + i] == StreamOf(tasks[i], c, start).value;
    }
  }

  /**
    What Logs shows, or its error. The start time is parsed before anything
    else; the service is looked up by the name as given; the tasks are those
    ListTasks gives for the described service's name. Tail mode follows the
    same streams.
   */
  function LogsPlan(api: Api, resolved: Result<Definition, string>, name: string, opt: LogsOption, now: int)
    : Result<seq<Shown>, Error>
  {
    match StartOf(opt, now)
    case Failure(e) => Failure(e)
    case Success(start) =>
      match resolved
      case Failure(m) => Failure(ConfigFailed(m))
      case Success(def) =>
        if name !in def.nameToSrv then Failure(UndefinedService(name))
        else
          match api.describeServices(def.cluster, [name])
          case Failure(m) => Failure(ApiError("DescribeServices", m))
          case Success(desc) =>
            if desc.services == [] then Failure(Crash("Logs: no service described"))
            else
              var srv := desc.services[0];
              if srv.taskDefinition.None? then Failure(Crash("Logs: nil TaskDefinition"))
              else
                match api.describeTaskDefinition(srv.taskDefinition.value)
                case Failure(m) => Failure(ApiError("DescribeTaskDefinition", m))
                case Success(td) =>
                  match SelectContainer(td, opt.containerName)
                  case Failure(e) => Failure(e)
                  case Success(None) => Failure(Crash("Logs: nil container"))
                  case Success(Some(c)) =>
                    if c.name.None? then Failure(Crash("Logs: nil container name"))
                    else if srv.serviceName.None? then Failure(Crash("Logs: nil ServiceName"))
                    else
                      match api.listServiceTasks(def.cluster, srv.serviceName.value)
                      case Failure(m) => Failure(ApiError("ListTasks", m))
                      case Success(tasks) => StreamsFrom([], tasks, c, start)
  }

  /** Logs, step by step. */
  method Logs(api: Api, resolved: Result<Definition, string>, name: string, opt: LogsOption, now: int)
    returns (r: Result<seq<Shown>, Error>)
    ensures r == LogsPlan(api, resolved, name, opt, now)
  {
    var start := now;
    if opt.startTime != "" {
      var t := ParseStartTime(opt.startTime, now);
      if t.Failure? {
        return Failure(t.error);
      }
      start := t.value;
    }
    if resolved.Failure? {
      return Failure(ConfigFailed(resolved.error));
    }
    var def := resolved.value;
    if name !in def.nameToSrv {
      return Failure(UndefinedService(name));
    }
    var desc := api.describeServices(def.cluster, [name]);
    if desc.Failure? {
      return Failure(ApiError("DescribeServices", desc.error));
    }
    if desc.value.services == [] {
      return Failure(Crash("Logs: no service described"));
    }
    var srv := desc.value.services[0];
    if srv.taskDefinition.None? {
      return Failure(Crash("Logs: nil TaskDefinition"));
    }
    var td := api.describeTaskDefinition(srv.taskDefinition.value);
    if td.Failure? {
      return Failure(ApiError("DescribeTaskDefinition", td.error));
    }
    var selected := ContainerOf(td.value, opt.containerName);
    if selected.Failure? {
      return Failure(selected.error);
    }
    if selected.value.None? {
      return Failure(Crash("Logs: nil container"));
    }
    var container := selected.value.value;
    if container.name.None? {
      return Failure(Crash("Logs: nil container name"));
    }
    if srv.serviceName.None? {
      return Failure(Crash("Logs: nil ServiceName"));
    }
    var tasks := api.listServiceTasks(def.cluster, srv.serviceName.value);
    if tasks.Failure? {
      return Failure(ApiError("ListTasks", tasks.error));
    }
    r := ShowStreams(tasks.value, container, start);
  }

  /** A service missing from the configuration is an error, once the start time parses. */
  lemma UndefinedServiceFails(api: Api, def: Definition, name: string, opt: LogsOption, now: int)
    requires name !in def.nameToSrv && StartOf(opt, now).Success?
    ensures LogsPlan(api, Success(def), name, opt, now) == Failure(UndefinedService(name))
  {
  }
}
