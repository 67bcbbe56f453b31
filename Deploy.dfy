/**
  The deploy planner (deploy.go). It registers every task definition, creates
  the missing CloudWatch log groups, creates the services ECS does not have (or
  has as INACTIVE), updates every service, and waits for them to become stable.

  The effects are threaded as a `Progress` value: the action log, the ARNs
  registered so far (`nameToTdArn`), and the first error. Each loop of the
  source is a method proved equal to a specification function, which folds one
  step per key from the front and stops at the first error.
 */
module Deploy {
  import opened Wrappers
  import opened Text
  import opened Sorting
  import opened Ecs
  import opened Client
  import opened EcsUtil
  import opened Listing

  datatype DeployOption = DeployOption(
    updateService: bool,
    forceNewDeployment: bool,
    autoLogGroup: bool,
    noWait: bool,
    dryRun: bool)

  /** A configured service: its ECS settings and the logical name of the task definition it runs. */
  datatype ServiceDef = ServiceDef(srv: Service, taskDefinition: string)

  /** What a Go map read gives for a missing key. */
  const ZeroServiceDef := ServiceDef(EmptyService, "")

  /** The resolved definitions the planner works from, keyed by logical name. */
  datatype Definition = Definition(
    cluster: string,
    nameToTd: map<string, TaskDefinition>,
    nameToSrv: map<string, ServiceDef>)

  /** resolveFullName and resolveKeyName: logical name to ECS name and back. */
  datatype Naming = Naming(fullName: string -> string, keyName: string -> string)

  /** A Go map iteration order: every key exactly once. */
  ghost predicate Enumerates(order: seq<string>, keys: set<string>) {
    && (forall i, j :: 0 <= i < j < |order| ==> order[i] != order[j])
    && (forall k :: k in order <==> k in keys)
  }

  function ServiceDefOf(def: Definition, name: string): ServiceDef {
    if name in def.nameToSrv then def.nameToSrv[name] else ZeroServiceDef
  }

  // ---------------------------------------------------------------------------
  // The action log

  datatype Progress = Progress(log: seq<Action>, nameToTdArn: map<string, string>, err: Option<Error>)

  const Start := Progress([], map[], None)

  /** The phase an action belongs to; a deploy issues them in this order. */
  function Phase(a: Action): nat {
    match a
    case RegisterTaskDefinition(_) => 0
    case CreateLogGroup(_) => 1
    case CreateService(_, _, _) => 2
    case DeleteService(_, _, _) => 2
    case UpdateService(_) => 3
    case WaitServicesStable(_, _) => 4
    case _ => 5
  }

  /** `after` is `before` followed by actions of phase `k` only. */
  ghost predicate Adds(before: seq<Action>, after: seq<Action>, k: nat) {
    && |before| <= |after|
    && after[..|before|] == before
    && forall i :: |before| <= i < |after| ==> Phase(after[i]) == k
  }

  /** The log is ordered by phase and holds nothing past phase `k`. */
  ghost predicate UpTo(log: seq<Action>, k: nat) {
    && (forall i, j :: 0 <= i < j < |log| ==> Phase(log[i]) <= Phase(log[j]))
    && (forall i :: 0 <= i < |log| ==> Phase(log[i]) <= k)
  }

  /** What a step of phase `k` may do: append actions of its phase (none in a dry run); only registering records ARNs. */
  ghost predicate Extends(p: Progress, q: Progress, k: nat, dryRun: bool) {
    && Adds(p.log, q.log, k)
    && (dryRun ==> q.log == p.log)
    && (k != 0 ==> q.nameToTdArn == p.nameToTdArn)
  }

  lemma ExtendsTrans(p: Progress, q: Progress, r: Progress, k: nat, dryRun: bool)
    requires Extends(p, q, k, dryRun) && Extends(q, r, k, dryRun)
    ensures Extends(p, r, k, dryRun)
  {
    assert r.log[..|p.log|] == r.log[..|q.log|][..|p.log|];
  }

  lemma AddsUpTo(before: seq<Action>, after: seq<Action>, k: nat)
    requires UpTo(before, k) && Adds(before, after, k)
    ensures UpTo(after, k)
  {
    forall i | 0 <= i < |before|
      ensures after[i] == before[i]
    {
      assert after[..|before|][i] == after[i];
    }
  }

  /** Issues a call: it is recorded, and its failure, if any, becomes the error. */
  function Issue(api: Api, p: Progress, a: Action, call: string): (q: Progress)
    ensures q.log == p.log + [a] && q.nameToTdArn == p.nameToTdArn
    ensures q.err.Some? <==> api.outcome(a).Some?
  {
    match api.outcome(a)
    case Some(m) => Progress(p.log + [a], p.nameToTdArn, Some(ApiError(call, m)))
    case None => Progress(p.log + [a], p.nameToTdArn, None)
  }

  // ---------------------------------------------------------------------------
  // Registering the task definitions (deploy.go:231-261)

  /** The input registering logical task definition `name` sends: its family is the full name. */
  function RegisterInput(def: Definition, naming: Naming, name: string): (input: RegisterTaskDefinitionInput)
    requires name in def.nameToTd
    ensures input.family == Some(naming.fullName(name))
    ensures input.containerDefinitions == def.nameToTd[name].containerDefinitions
  {
    TdToRegisterTaskDefinitionInput(def.nameToTd[name].(family := Some(naming.fullName(name))))
  }

  /**
    One pass of the register loop. A dry run only reads: the newest revision of
    the family, if any, is described for the diff. Otherwise the definition is
    registered and its new ARN recorded under the logical name.
   */
  function RegisterOne(api: Api, def: Definition, naming: Naming, dryRun: bool, p: Progress, name: string): (q: Progress)
    requires name in def.nameToTd
    ensures Extends(p, q, 0, dryRun)
    ensures !dryRun ==> q.log == p.log + [RegisterTaskDefinition(RegisterInput(def, naming, name))]
    ensures !dryRun && q.err.None? ==>
      && api.registerTaskDefinition(RegisterInput(def, naming, name)).Success?
      && api.registerTaskDefinition(RegisterInput(def, naming, name)).value.taskDefinitionArn.Some?
      && q.nameToTdArn == p.nameToTdArn[name := api.registerTaskDefinition(RegisterInput(def, naming, name)).value.taskDefinitionArn.value]
  {
    var fullname := naming.fullName(name);
    if dryRun then
      match FindLastTaskDefinition(api, fullname)
      case Failure(_) => p
      case Success(prev) =>
        match api.describeTaskDefinition(prev)
        case Failure(m) => p.(err := Some(ApiError("DescribeTaskDefinition", m)))
        case Success(_) => p
    else
      var input := RegisterInput(def, naming, name);
      var logged := p.(log := p.log + [RegisterTaskDefinition(input)]);
      match api.registerTaskDefinition(input)
      case Failure(m) => logged.(err := Some(ApiError("RegisterTaskDefinition", m)))
      case Success(out) =>
        if out.taskDefinitionArn.None? then logged.(err := Some(Crash("RegisterTaskDefinition: nil TaskDefinitionArn")))
        else logged.(nameToTdArn := p.nameToTdArn[name := out.taskDefinitionArn.value])
  }

  function Registered(api: Api, def: Definition, naming: Naming, dryRun: bool, p: Progress, order: seq<string>): Progress
    requires forall k <- order :: k in def.nameToTd
    decreases |order|
  {
    if order == [] || p.err.Some? then p
    else Registered(api, def, naming, dryRun, RegisterOne(api, def, naming, dryRun, p, order[0]), order[1..])
  }

  method RegisterTaskDefinitions(api: Api, def: Definition, naming: Naming, dryRun: bool, order: seq<string>)
    returns (p: Progress)
    requires forall k <- order :: k in def.nameToTd
    ensures p == Registered(api, def, naming, dryRun, Start, order)
  {
    p := Start;
    var i := 0;
    while i < |order|
      invariant 0 <= i <= |order| && p.err.None?
      invariant Registered(api, def, naming, dryRun, Start, order) == Registered(api, def, naming, dryRun, p, order[i..])
    {
      assert order[i..][1..] == order[i + 1..];
      var name := order[i];
      var fullname := naming.fullName(name);
      var td := def.nameToTd[name].(family := Some(fullname));
      if dryRun {
        var prevArn := FindLastTaskDefinition(api, fullname);
        if prevArn.Success? {
          var prevTd := api.describeTaskDefinition(prevArn.value);
          if prevTd.Failure? {
            p := p.(err := Some(ApiError("DescribeTaskDefinition", prevTd.error)));
            return;
          }
        }
      } else {
        var input := TdToRegisterTaskDefinitionInput(td);
        var before := p.nameToTdArn;
        p := p.(log := p.log + [RegisterTaskDefinition(input)]);
        var newTd := api.registerTaskDefinition(input);
        if newTd.Failure? {
          p := p.(err := Some(ApiError("RegisterTaskDefinition", newTd.error)));
          return;
        }
        if newTd.value.taskDefinitionArn.None? {
          p := p.(err := Some(Crash("RegisterTaskDefinition: nil TaskDefinitionArn")));
          return;
        }
        p := p.(nameToTdArn := before[name := newTd.value.taskDefinitionArn.value]);
      }
      i := i + 1;
    }
  }

  lemma {:induction false} RegisteredExtends(api: Api, def: Definition, naming: Naming, dryRun: bool, p: Progress, order: seq<string>)
    requires forall k <- order :: k in def.nameToTd
    ensures Extends(p, Registered(api, def, naming, dryRun, p, order), 0, dryRun)
    decreases |order|
  {
    if order != [] && p.err.None? {
      var q := RegisterOne(api, def, naming, dryRun, p, order[0]);
      RegisteredExtends(api, def, naming, dryRun, q, order[1..]);
      ExtendsTrans(p, q, Registered(api, def, naming, dryRun, q, order[1..]), 0, dryRun);
    }
  }

  /** When registering succeeds, every task definition was registered once, in iteration order. */
  lemma {:induction false} RegisteredLog(api: Api, def: Definition, naming: Naming, p: Progress, order: seq<string>)
    requires forall k <- order :: k in def.nameToTd
    requires p.err.None?
    ensures var q := Registered(api, def, naming, false, p, order);
      q.err.None? ==>
        && |q.log| == |p.log| + |order| && q.log[..|p.log|] == p.log
        && (forall i :: 0 <= i < |order| ==> q.log[|p.log| + i] == RegisterTaskDefinition(RegisterInput(def, naming, order[i])))
    decreases |order|
  {
    if order != [] {
      var q := RegisterOne(api, def, naming, false, p, order[0]);
      if q.err.None? {
        RegisteredLog(api, def, naming, q, order[1..]);
        var r := Registered(api, def, naming, false, q, order[1..]);
        if r.err.None? {
          assert r.log[..|p.log|] == r.log[..|q.log|][..|p.log|];
          forall i | 0 <= i < |order|
            ensures r.log[|p.log| + i] == RegisterTaskDefinition(RegisterInput(def, naming, order[i]))
          {
            if i > 0 {
              assert order[i] == order[1..][i - 1];
              assert r.log[|p.log| + i] == r.log[|q.log| + (i - 1)];
            } else {
              assert r.log[|p.log|] == r.log[..|q.log|][|p.log|];
            }
          }
        }
      }
    }
  }

  /** When registering succeeds, each logical name of the loop has an ARN. */
  lemma {:induction false} RegisteredKeys(api: Api, def: Definition, naming: Naming, p: Progress, order: seq<string>)
    requires forall k <- order :: k in def.nameToTd
    requires p.err.None?
    ensures var q := Registered(api, def, naming, false, p, order);
      q.err.None? ==> q.nameToTdArn.Keys == p.nameToTdArn.Keys + (set k | k in order)
    decreases |order|
  {
    if order != [] {
      var q := RegisterOne(api, def, naming, false, p, order[0]);
      if q.err.None? {
        RegisteredKeys(api, def, naming, q, order[1..]);
        assert (set k | k in order) == {order[0]} + (set k | k in order[1..]);
      }
    }
  }

  // ---------------------------------------------------------------------------
  // Log groups (deploy.go:23-61)

  /**
    The log group a container sends to: set for the awslogs driver. A log
    configuration without a driver, or with awslogs but no group, is a nil
    dereference in the source.
   */
  function LogGroupOf(cd: ContainerDefinition): (r: Result<Option<string>, Error>)
    ensures r.Failure? <==> (cd.logConfiguration.Some? && (
      || cd.logConfiguration.value.logDriver.None?
      || (cd.logConfiguration.value.logDriver == Some("awslogs") && "awslogs-group" !in cd.logConfiguration.value.options)))
    ensures forall g :: r == Success(Some(g)) <==>
      && cd.logConfiguration.Some? && cd.logConfiguration.value.logDriver == Some("awslogs")
      && "awslogs-group" in cd.logConfiguration.value.options && cd.logConfiguration.value.options["awslogs-group"] == g
  {
    match cd.logConfiguration
    case None => Success(None)
    case Some(lc) =>
      if lc.logDriver.None? then Failure(Crash("createLogGroupIfNotExist: nil dereference"))
      else if lc.logDriver.value != "awslogs" then Success(None)
      else if "awslogs-group" !in lc.options then Failure(Crash("createLogGroupIfNotExist: nil dereference"))
      else Success(Some(lc.options["awslogs-group"]))
  }

  function GroupsIn(groups: set<string>, cds: seq<ContainerDefinition>): Result<set<string>, Error>
    decreases |cds|
  {
    if cds == [] then Success(groups)
    else match LogGroupOf(cds[0])
      case Failure(e) => Failure(e)
      case Success(g) => GroupsIn(if g.Some? then groups + {g.value} else groups, cds[1..])
  }

  function GroupsAcross(def: Definition, groups: set<string>, order: seq<string>): Result<set<string>, Error>
    requires forall k <- order :: k in def.nameToTd
    decreases |order|
  {
    if order == [] then Success(groups)
    else match GroupsIn(groups, def.nameToTd[order[0]].containerDefinitions)
      case Failure(e) => Failure(e)
      case Success(g) => GroupsAcross(def, g, order[1..])
  }

  method CollectLogGroups(def: Definition, order: seq<string>) returns (r: Result<set<string>, Error>)
    requires forall k <- order :: k in def.nameToTd
    ensures r == GroupsAcross(def, {}, order)
  {
    var groups: set<string> := {};
    var j := 0;
    while j < |order|
      invariant 0 <= j <= |order|
      invariant GroupsAcross(def, {}, order) == GroupsAcross(def, groups, order[j..])
    {
      assert order[j..][1..] == order[j + 1..];
      var cds := def.nameToTd[order[j]].containerDefinitions;
      ghost var before := groups;
      var i := 0;
      while i < |cds|
        invariant 0 <= i <= |cds|
        invariant GroupsIn(before, cds) == GroupsIn(groups, cds[i..])
      {
        assert cds[i..][1..] == cds[i + 1..];
        var lc := cds[i].logConfiguration;
        if lc.Some? {
          if lc.value.logDriver.None? {
            return Failure(Crash("createLogGroupIfNotExist: nil dereference"));
          }
          if lc.value.logDriver.value == "awslogs" {
            if "awslogs-group" !in lc.value.options {
              return Failure(Crash("createLogGroupIfNotExist: nil dereference"));
            }
            groups := groups + {lc.value.options["awslogs-group"]};
          }
        }
        i := i + 1;
      }
      assert cds[i..] == [];
      j := j + 1;
    }
    assert order[j..] == [];
    return Success(groups);
  }

  lemma GroupsInExact(groups: set<string>, cds: seq<ContainerDefinition>)
    ensures GroupsIn(groups, cds).Failure? <==> exists i :: 0 <= i < |cds| && LogGroupOf(cds[i]).Failure?
    ensures GroupsIn(groups, cds).Failure? ==> GroupsIn(groups, cds).error == Crash("createLogGroupIfNotExist: nil dereference")
    ensures GroupsIn(groups, cds).Success? ==> forall g ::
      g in GroupsIn(groups, cds).value <==> g in groups || exists i :: 0 <= i < |cds| && LogGroupOf(cds[i]) == Success(Some(g))
  {
    GroupsInFails(groups, cds);
    GroupsInMembers(groups, cds);
  }

  /** Collecting the groups of some containers fails exactly at a container whose log configuration is dereferenced nil. */
  lemma {:induction false} GroupsInFails(groups: set<string>, cds: seq<ContainerDefinition>)
    ensures GroupsIn(groups, cds).Failure? <==> exists i :: 0 <= i < |cds| && LogGroupOf(cds[i]).Failure?
    ensures GroupsIn(groups, cds).Failure? ==> GroupsIn(groups, cds).error == Crash("createLogGroupIfNotExist: nil dereference")
    decreases |cds|
  {
    if cds != [] {
      var r := LogGroupOf(cds[0]);
      if r.Success? {
        var next := if r.value.Some? then groups + {r.value.value} else groups;
        GroupsInFails(next, cds[1..]);
        if exists i :: 0 <= i < |cds[1..]| && LogGroupOf(cds[1..][i]).Failure? {
          var i :| 0 <= i < |cds[1..]| && LogGroupOf(cds[1..][i]).Failure?;
          assert cds[i + 1] == cds[1..][i];
        }
        if exists i :: 0 <= i < |cds| && LogGroupOf(cds[i]).Failure? {
          var i :| 0 <= i < |cds| && LogGroupOf(cds[i]).Failure?;
          assert i > 0 && cds[1..][i - 1] == cds[i];
        }
      }
    }
  }

  /** A successful collection holds the groups it started with and those of the awslogs containers. */
  lemma {:induction false} GroupsInMembers(groups: set<string>, cds: seq<ContainerDefinition>)
    ensures GroupsIn(groups, cds).Success? ==> forall g ::
      g in GroupsIn(groups, cds).value <==> g in groups || exists i :: 0 <= i < |cds| && LogGroupOf(cds[i]) == Success(Some(g))
    decreases |cds|
  {
    if cds != [] {
      var r := LogGroupOf(cds[0]);
      if r.Success? {
        var next := if r.value.Some? then groups + {r.value.value} else groups;
        GroupsInMembers(next, cds[1..]);
        if GroupsIn(groups, cds).Success? {
          var all := GroupsIn(groups, cds).value;
          forall g | exists i :: 0 <= i < |cds| && LogGroupOf(cds[i]) == Success(Some(g))
            ensures g in all
          {
            var i :| 0 <= i < |cds| && LogGroupOf(cds[i]) == Success(Some(g));
            if i > 0 {
              assert cds[1..][i - 1] == cds[i];
            }
          }
          forall g | g in all && g !in next
            ensures exists i :: 0 <= i < |cds| && LogGroupOf(cds[i]) == Success(Some(g))
          {
            var i :| 0 <= i < |cds[1..]| && LogGroupOf(cds[1..][i]) == Success(Some(g));
            assert cds[i + 1] == cds[1..][i];
          }
        }
      }
    }
  }

  /** The containers of a task definition, none for a name that has none. */
  function Containers(def: Definition, name: string): seq<ContainerDefinition> {
    if name in def.nameToTd then def.nameToTd[name].containerDefinitions else []
  }

  /** Some container of the definition logs to group `g` through awslogs. */
  ghost predicate DeclaresGroup(def: Definition, g: string) {
    exists name, i :: name in def.nameToTd && 0 <= i < |Containers(def, name)| && LogGroupOf(Containers(def, name)[i]) == Success(Some(g))
  }

  /** Some container of the definition has a log configuration the source dereferences nil. */
  ghost predicate SomeLogCrash(def: Definition) {
    exists name, i :: name in def.nameToTd && 0 <= i < |Containers(def, name)| && LogGroupOf(Containers(def, name)[i]).Failure?
  }

  /** Some container of the listed task definitions logs to group `g` through awslogs. */
  ghost predicate GroupIn(def: Definition, order: seq<string>, g: string) {
    exists j, i :: 0 <= j < |order| && 0 <= i < |Containers(def, order[j])| && LogGroupOf(Containers(def, order[j])[i]) == Success(Some(g))
  }

  /** Some container of the listed task definitions has a log configuration the source dereferences nil. */
  ghost predicate CrashIn(def: Definition, order: seq<string>) {
    exists j, i :: 0 <= j < |order| && 0 <= i < |Containers(def, order[j])| && LogGroupOf(Containers(def, order[j])[i]).Failure?
  }

  lemma GroupsAcrossExact(def: Definition, groups: set<string>, order: seq<string>)
    requires forall k <- order :: k in def.nameToTd
    ensures GroupsAcross(def, groups, order).Failure? <==> CrashIn(def, order)
    ensures GroupsAcross(def, groups, order).Success? ==>
      forall g :: g in GroupsAcross(def, groups, order).value <==> (g in groups || GroupIn(def, order, g))
  {
    GroupsAcrossFails(def, groups, order);
    GroupsAcrossMembers(def, groups, order);
  }

  /** Collecting across task definitions fails exactly when one of their containers would be dereferenced nil. */
  lemma {:induction false} GroupsAcrossFails(def: Definition, groups: set<string>, order: seq<string>)
    requires forall k <- order :: k in def.nameToTd
    ensures GroupsAcross(def, groups, order).Failure? <==> CrashIn(def, order)
    decreases |order|
  {
    if order != [] {
      var cds := Containers(def, order[0]);
      GroupsInFails(groups, cds);
      var r0 := GroupsIn(groups, cds);
      if r0.Failure? {
        var i :| 0 <= i < |cds| && LogGroupOf(cds[i]).Failure?;
        assert order[0] == order[0];
      } else {
        GroupsAcrossFails(def, r0.value, order[1..]);
        if CrashIn(def, order) {
          var j, i :| 0 <= j < |order| && 0 <= i < |Containers(def, order[j])| && LogGroupOf(Containers(def, order[j])[i]).Failure?;
          assert j > 0;
          assert order[1..][j - 1] == order[j];
        }
        if CrashIn(def, order[1..]) {
          var j, i :| 0 <= j < |order[1..]| && 0 <= i < |Containers(def, order[1..][j])| && LogGroupOf(Containers(def, order[1..][j])[i]).Failure?;
          assert order[j + 1] == order[1..][j];
        }
      }
    }
  }

  /** A successful collection across task definitions holds the groups it started with and those of their awslogs containers. */
  lemma {:induction false} GroupsAcrossMembers(def: Definition, groups: set<string>, order: seq<string>)
    requires forall k <- order :: k in def.nameToTd
    ensures GroupsAcross(def, groups, order).Success? ==>
      forall g :: g in GroupsAcross(def, groups, order).value <==> (g in groups || GroupIn(def, order, g))
    decreases |order|
  {
    if order != [] {
      var cds := Containers(def, order[0]);
      GroupsInMembers(groups, cds);
      var r0 := GroupsIn(groups, cds);
      var r := GroupsAcross(def, groups, order);
      if r0.Success? && r.Success? {
        GroupsAcrossMembers(def, r0.value, order[1..]);
        forall g | GroupIn(def, order, g)
          ensures g in r.value
        {
          var j, i :| 0 <= j < |order| && 0 <= i < |Containers(def, order[j])| && LogGroupOf(Containers(def, order[j])[i]) == Success(Some(g));
          if j > 0 {
            assert order[1..][j - 1] == order[j];
          }
        }
        forall g | g in r.value
          ensures g in groups || GroupIn(def, order, g)
        {
          if g !in r0.value {
            var j, i :| 0 <= j < |order[1..]| && 0 <= i < |Containers(def, order[1..][j])| && LogGroupOf(Containers(def, order[1..][j])[i]) == Success(Some(g));
            assert order[j + 1] == order[1..][j];
          } else if g !in groups {
            var i :| 0 <= i < |cds| && LogGroupOf(cds[i]) == Success(Some(g));
            assert order[0] == order[0];
          }
        }
      }
    }
  }

  /**
    The groups considered are exactly the awslogs-group values of awslogs
    containers, whatever the iteration order; collecting fails exactly when
    some container's log configuration would be dereferenced nil.
   */
  lemma LogGroupsExact(def: Definition, order: seq<string>)
    requires Enumerates(order, def.nameToTd.Keys)
    ensures GroupsAcross(def, {}, order).Failure? <==> SomeLogCrash(def)
    ensures GroupsAcross(def, {}, order).Success? ==>
      forall g :: g in GroupsAcross(def, {}, order).value <==> DeclaresGroup(def, g)
  {
    GroupsAcrossExact(def, {}, order);
    if SomeLogCrash(def) {
      var name, i :| name in def.nameToTd && 0 <= i < |Containers(def, name)| && LogGroupOf(Containers(def, name)[i]).Failure?;
      var j :| 0 <= j < |order| && order[j] == name;
      assert CrashIn(def, order);
    }
    forall g | DeclaresGroup(def, g)
      ensures GroupIn(def, order, g)
    {
      var name, i :| name in def.nameToTd && 0 <= i < |Containers(def, name)| && LogGroupOf(Containers(def, name)[i]) == Success(Some(g));
      var j :| 0 <= j < |order| && order[j] == name;
    }
  }

  /** One group: created only if no described group has exactly that name, and never in a dry run. */
  function EnsureLogGroup(api: Api, dryRun: bool, p: Progress, g: string): (q: Progress)
    requires p.err.None?
    ensures Extends(p, q, 1, dryRun)
    ensures q.log == p.log + (
      if !dryRun && api.describeLogGroups(g).Success? && g !in api.describeLogGroups(g).value then [CreateLogGroup(g)] else [])
    ensures q.err.Some? <==> api.describeLogGroups(g).Failure? || (q.log != p.log && api.outcome(CreateLogGroup(g)).Some?)
  {
    match api.describeLogGroups(g)
    case Failure(m) => p.(err := Some(ApiError("DescribeLogGroups", m)))
    case Success(lgs) => if g in lgs || dryRun then p else Issue(api, p, CreateLogGroup(g), "CreateLogGroup")
  }

  function GroupsEnsured(api: Api, dryRun: bool, p: Progress, order: seq<string>): Progress
    decreases |order|
  {
    if order == [] || p.err.Some? then p
    else GroupsEnsured(api, dryRun, EnsureLogGroup(api, dryRun, p, order[0]), order[1..])
  }

  /** createLogGroupIfNotExist: collect the groups, then ensure each, in the order given. */
  function LogGroupsCreated(api: Api, def: Definition, dryRun: bool, tdOrder: seq<string>, groupOrder: seq<string>, p: Progress): Progress
    requires forall k <- tdOrder :: k in def.nameToTd
  {
    match GroupsAcross(def, {}, tdOrder)
    case Failure(e) => p.(err := Some(e))
    case Success(_) => GroupsEnsured(api, dryRun, p, groupOrder)
  }

  method CreateLogGroupIfNotExist(api: Api, def: Definition, dryRun: bool, tdOrder: seq<string>, groupOrder: seq<string>, p0: Progress)
    returns (p: Progress)
    requires forall k <- tdOrder :: k in def.nameToTd
    requires p0.err.None?
    ensures p == LogGroupsCreated(api, def, dryRun, tdOrder, groupOrder, p0)
  {
    var groups := CollectLogGroups(def, tdOrder);
    if groups.Failure? {
      return p0.(err := Some(groups.error));
    }
    p := p0;
    var i := 0;
    while i < |groupOrder|
      invariant 0 <= i <= |groupOrder| && p.err.None?
      invariant GroupsEnsured(api, dryRun, p0, groupOrder) == GroupsEnsured(api, dryRun, p, groupOrder[i..])
    {
      assert groupOrder[i..][1..] == groupOrder[i + 1..];
      var g := groupOrder[i];
      var lgs := api.describeLogGroups(g);
      if lgs.Failure? {
        return p.(err := Some(ApiError("DescribeLogGroups", lgs.error)));
      }
      var isExist := g in lgs.value;
      if !isExist && !dryRun {
        p := Issue(api, p, CreateLogGroup(g), "CreateLogGroup");
        if p.err.Some? {
          return;
        }
      }
      i := i + 1;
    }
  }

  lemma {:induction false} GroupsEnsuredExtends(api: Api, dryRun: bool, p: Progress, order: seq<string>)
    ensures Extends(p, GroupsEnsured(api, dryRun, p, order), 1, dryRun)
    decreases |order|
  {
    if order != [] && p.err.None? {
      var q := EnsureLogGroup(api, dryRun, p, order[0]);
      GroupsEnsuredExtends(api, dryRun, q, order[1..]);
      ExtendsTrans(p, q, GroupsEnsured(api, dryRun, q, order[1..]), 1, dryRun);
    }
  }

  // ---------------------------------------------------------------------------
  // Creating services (deploy.go:63-130)

  /**
    A service ECS reported as a failure (it does not exist) is created under
    its full name with the ARN registered for the task definition it refers
    to; in a dry run it is only shown.
   */
  function CreateAbsent(api: Api, def: Definition, naming: Naming, dryRun: bool, p: Progress, f: ApiFailure): (q: Progress)
    ensures Extends(p, q, 2, dryRun)
    ensures var fullname := ArnToName(f.arn); var name := naming.keyName(fullname); var sd := ServiceDefOf(def, name);
      && (dryRun ==> q == p)
      && (!dryRun && sd.taskDefinition !in p.nameToTdArn ==> q.log == p.log && q.err == Some(BadReference(name, sd.taskDefinition)))
      && (!dryRun && sd.taskDefinition in p.nameToTdArn ==> exists srv ::
            && q.log == p.log + [CreateService(def.cluster, p.nameToTdArn[sd.taskDefinition], srv)]
            && srv.serviceName == Some(fullname) && srv.(serviceName := sd.srv.serviceName) == sd.srv
            && (q.err.Some? <==> api.outcome(CreateService(def.cluster, p.nameToTdArn[sd.taskDefinition], srv)).Some?))
  {
    var fullname := ArnToName(f.arn);
    var name := naming.keyName(fullname);
    var sd := ServiceDefOf(def, name);
    var srvDef := sd.srv.(serviceName := Some(fullname));
    if dryRun then p
    else if sd.taskDefinition !in p.nameToTdArn then p.(err := Some(BadReference(name, sd.taskDefinition)))
    else Issue(api, p, CreateService(def.cluster, p.nameToTdArn[sd.taskDefinition], srvDef), "CreateService")
  }

  /**
    A described service: an INACTIVE one is deleted with force and then
    created again, in that order; any other status leaves it alone. A
    missing status or name is a nil dereference in the source.
   */
  function RecreateInactive(api: Api, def: Definition, naming: Naming, dryRun: bool, p: Progress, d: Service): (q: Progress)
    ensures Extends(p, q, 2, dryRun)
    ensures d.status.Some? && d.status.value != "INACTIVE" ==> q == p
    ensures q.log != p.log ==>
      && d.status == Some("INACTIVE") && d.serviceName.Some? && !dryRun
      && ServiceDefOf(def, naming.keyName(d.serviceName.value)).taskDefinition in p.nameToTdArn
      && q.log[..|p.log| + 1] == p.log + [DeleteService(d.serviceName.value, def.cluster, true)]
    ensures |q.log| == |p.log| + 2 ==> exists srv ::
      && q.log == p.log + [DeleteService(d.serviceName.value, def.cluster, true),
          CreateService(def.cluster, p.nameToTdArn[ServiceDefOf(def, naming.keyName(d.serviceName.value)).taskDefinition], srv)]
      && srv.serviceName == d.serviceName
      && srv.(serviceName := ServiceDefOf(def, naming.keyName(d.serviceName.value)).srv.serviceName)
         == ServiceDefOf(def, naming.keyName(d.serviceName.value)).srv
    ensures d.status == Some("INACTIVE") && d.serviceName.Some? && !dryRun && q.err.None? ==> |q.log| == |p.log| + 2
  {
    if d.status.None? then p.(err := Some(Crash("createServiceIfNotExist: nil Status")))
    else if d.status.value != "INACTIVE" then p
    else if d.serviceName.None? then p.(err := Some(Crash("createServiceIfNotExist: nil ServiceName")))
    else
      var fullname := d.serviceName.value;
      var sd := ServiceDefOf(def, naming.keyName(fullname));
      var srvDef := sd.srv.(serviceName := Some(fullname));
      if dryRun then p
      else if sd.taskDefinition !in p.nameToTdArn then p.(err := Some(BadReferenceUnnamed))
      else
        var deleted := Issue(api, p, DeleteService(fullname, def.cluster, true), "DeleteService");
        if deleted.err.Some? then deleted
        else Issue(api, deleted, CreateService(def.cluster, p.nameToTdArn[sd.taskDefinition], srvDef), "CreateService")
  }

  function CreatedAbsent(api: Api, def: Definition, naming: Naming, dryRun: bool, p: Progress, failures: seq<ApiFailure>): Progress
    decreases |failures|
  {
    if failures == [] || p.err.Some? then p
    else CreatedAbsent(api, def, naming, dryRun, CreateAbsent(api, def, naming, dryRun, p, failures[0]), failures[1..])
  }

  function Recreated(api: Api, def: Definition, naming: Naming, dryRun: bool, p: Progress, services: seq<Service>): Progress
    decreases |services|
  {
    if services == [] || p.err.Some? then p
    else Recreated(api, def, naming, dryRun, RecreateInactive(api, def, naming, dryRun, p, services[0]), services[1..])
  }

  /** createServiceIfNotExist: one describe of all the services, then the absent ones, then the INACTIVE ones. */
  function ServicesCreated(api: Api, def: Definition, naming: Naming, dryRun: bool, p: Progress, srvNames: seq<string>): Progress {
    match api.describeServices(def.cluster, srvNames)
    case Failure(m) => p.(err := Some(ApiError("DescribeServices", m)))
    case Success(desc) =>
      var created := CreatedAbsent(api, def, naming, dryRun, p, desc.failures);
      if created.err.Some? then created else Recreated(api, def, naming, dryRun, created, desc.services)
  }

  method CreateServiceIfNotExist(api: Api, def: Definition, naming: Naming, dryRun: bool, srvNames: seq<string>, p0: Progress)
    returns (p: Progress)
    requires p0.err.None?
    ensures p == ServicesCreated(api, def, naming, dryRun, p0, srvNames)
  {
    var desc := api.describeServices(def.cluster, srvNames);
    if desc.Failure? {
      return p0.(err := Some(ApiError("DescribeServices", desc.error)));
    }
    p := CreateAbsentServices(api, def, naming, dryRun, desc.value.failures, p0);
    if p.err.Some? {
      return;
    }
    p := RecreateInactiveServices(api, def, naming, dryRun, desc.value.services, p);
  }

  /** The loop over the describe's failures. */
  method CreateAbsentServices(api: Api, def: Definition, naming: Naming, dryRun: bool, failures: seq<ApiFailure>, p0: Progress)
    returns (p: Progress)
    requires p0.err.None?
    ensures p == CreatedAbsent(api, def, naming, dryRun, p0, failures)
  {
    p := p0;
    var i := 0;
    while i < |failures|
      invariant 0 <= i <= |failures| && p.err.None?
      invariant CreatedAbsent(api, def, naming, dryRun, p0, failures) == CreatedAbsent(api, def, naming, dryRun, p, failures[i..])
    {
      assert failures[i..][1..] == failures[i + 1..];
      var fullname := ArnToName(failures[i].arn);
      var name := naming.keyName(fullname);
      var srv := ServiceDefOf(def, name);
      var srvDef := srv.srv.(serviceName := Some(fullname));
      if !dryRun {
        if srv.taskDefinition !in p.nameToTdArn {
          return p.(err := Some(BadReference(name, srv.taskDefinition)));
        }
        p := Issue(api, p, CreateService(def.cluster, p.nameToTdArn[srv.taskDefinition], srvDef), "CreateService");
        if p.err.Some? {
          return;
        }
      }
      i := i + 1;
    }
  }

  /** The loop over the described services. */
  method RecreateInactiveServices(api: Api, def: Definition, naming: Naming, dryRun: bool, services: seq<Service>, p0: Progress)
    returns (p: Progress)
    requires p0.err.None?
    ensures p == Recreated(api, def, naming, dryRun, p0, services)
  {
    p := p0;
    var i := 0;
    while i < |services|
      invariant 0 <= i <= |services| && p.err.None?
      invariant Recreated(api, def, naming, dryRun, p0, services) == Recreated(api, def, naming, dryRun, p, services[i..])
    {
      assert services[i..][1..] == services[i + 1..];
      var d := services[i];
      if d.status.None? {
        return p.(err := Some(Crash("createServiceIfNotExist: nil Status")));
      }
      if d.status.value == "INACTIVE" {
        if d.serviceName.None? {
          return p.(err := Some(Crash("createServiceIfNotExist: nil ServiceName")));
        }
        var fullname := d.serviceName.value;
        var srv := ServiceDefOf(def, naming.keyName(fullname));
        var srvDef := srv.srv.(serviceName := Some(fullname));
        if !dryRun {
          if srv.taskDefinition !in p.nameToTdArn {
            return p.(err := Some(BadReferenceUnnamed));
          }
          var tdArn := p.nameToTdArn[srv.taskDefinition];
          p := Issue(api, p, DeleteService(fullname, def.cluster, true), "DeleteService");
          if p.err.Some? {
            return;
          }
          p := Issue(api, p, CreateService(def.cluster, tdArn, srvDef), "CreateService");
          if p.err.Some? {
            return;
          }
        }
      }
      i := i + 1;
    }
  }

  lemma {:induction false} CreatedAbsentExtends(api: Api, def: Definition, naming: Naming, dryRun: bool, p: Progress, failures: seq<ApiFailure>)
    ensures Extends(p, CreatedAbsent(api, def, naming, dryRun, p, failures), 2, dryRun)
    decreases |failures|
  {
    if failures != [] && p.err.None? {
      var q := CreateAbsent(api, def, naming, dryRun, p, failures[0]);
      CreatedAbsentExtends(api, def, naming, dryRun, q, failures[1..]);
      ExtendsTrans(p, q, CreatedAbsent(api, def, naming, dryRun, q, failures[1..]), 2, dryRun);
    }
  }

  lemma {:induction false} RecreatedExtends(api: Api, def: Definition, naming: Naming, dryRun: bool, p: Progress, services: seq<Service>)
    ensures Extends(p, Recreated(api, def, naming, dryRun, p, services), 2, dryRun)
    decreases |services|
  {
    if services != [] && p.err.None? {
      var q := RecreateInactive(api, def, naming, dryRun, p, services[0]);
      RecreatedExtends(api, def, naming, dryRun, q, services[1..]);
      ExtendsTrans(p, q, Recreated(api, def, naming, dryRun, q, services[1..]), 2, dryRun);
    }
  }

  /** The service CreateAbsent creates for a failure entry. */
  function AbsentCreation(def: Definition, naming: Naming, arns: map<string, string>, f: ApiFailure): Action
    requires ServiceDefOf(def, naming.keyName(ArnToName(f.arn))).taskDefinition in arns
  {
    var fullname := ArnToName(f.arn);
    var sd := ServiceDefOf(def, naming.keyName(fullname));
    CreateService(def.cluster, arns[sd.taskDefinition], sd.srv.(serviceName := Some(fullname)))
  }

  /** Outside a dry run, when creating succeeds every service reported absent was created, with the registered ARN. */
  lemma {:induction false} AbsentAllCreated(api: Api, def: Definition, naming: Naming, p: Progress, failures: seq<ApiFailure>)
    requires p.err.None?
    ensures var q := CreatedAbsent(api, def, naming, false, p, failures);
      q.err.None? ==> forall f <- failures ::
        ServiceDefOf(def, naming.keyName(ArnToName(f.arn))).taskDefinition in p.nameToTdArn
        && AbsentCreation(def, naming, p.nameToTdArn, f) in q.log
    decreases |failures|
  {
    if failures != [] {
      var q := CreateAbsent(api, def, naming, false, p, failures[0]);
      var r := CreatedAbsent(api, def, naming, false, q, failures[1..]);
      if r.err.None? {
        assert q.err.None?;
        AbsentAllCreated(api, def, naming, q, failures[1..]);
        CreatedAbsentExtends(api, def, naming, false, q, failures[1..]);
        var f0 := failures[0];
        assert AbsentCreation(def, naming, p.nameToTdArn, f0) == q.log[|p.log|];
        assert r.log[..|q.log|] == q.log;
        assert r.log[|p.log|] == q.log[|p.log|];
        forall f <- failures
          ensures ServiceDefOf(def, naming.keyName(ArnToName(f.arn))).taskDefinition in p.nameToTdArn
            && AbsentCreation(def, naming, p.nameToTdArn, f) in r.log
        {
          if f != f0 {
            assert f in failures[1..];
          }
        }
      }
    }
  }

  /** A described service the recreate step gets past: it has a status, and an INACTIVE one a name and a registered definition. */
  predicate RecreatableOne(def: Definition, naming: Naming, arns: map<string, string>, d: Service) {
    && d.status.Some?
    && (d.status.value == "INACTIVE" ==>
          d.serviceName.Some? && ServiceDefOf(def, naming.keyName(d.serviceName.value)).taskDefinition in arns)
  }

  ghost predicate Recreatable(def: Definition, naming: Naming, arns: map<string, string>, services: seq<Service>) {
    forall i :: 0 <= i < |services| ==> RecreatableOne(def, naming, arns, services[i])
  }

  /** The calls that recreate one described service: for an INACTIVE one, a forced delete, then a create from its definition. */
  function RecreateActions(def: Definition, naming: Naming, arns: map<string, string>, d: Service): seq<Action>
    requires RecreatableOne(def, naming, arns, d)
  {
    if d.status.value != "INACTIVE" then []
    else
      var fullname := d.serviceName.value;
      var sd := ServiceDefOf(def, naming.keyName(fullname));
      [DeleteService(fullname, def.cluster, true), CreateService(def.cluster, arns[sd.taskDefinition], sd.srv.(serviceName := Some(fullname)))]
  }

  function Recreations(def: Definition, naming: Naming, arns: map<string, string>, services: seq<Service>): seq<Action>
    requires Recreatable(def, naming, arns, services)
    decreases |services|
  {
    if services == [] then []
    else RecreateActions(def, naming, arns, services[0]) + Recreations(def, naming, arns, services[1..])
  }

  /** Outside a dry run, a successful recreate of one service issues exactly its recreate calls and keeps the ARNs. */
  lemma RecreateOneLog(api: Api, def: Definition, naming: Naming, p: Progress, d: Service)
    requires p.err.None?
    ensures var q := RecreateInactive(api, def, naming, false, p, d);
      q.err.None? ==>
        && RecreatableOne(def, naming, p.nameToTdArn, d)
        && q.log == p.log + RecreateActions(def, naming, p.nameToTdArn, d)
        && q.nameToTdArn == p.nameToTdArn
  {
  }

  lemma RecreatableCons(def: Definition, naming: Naming, arns: map<string, string>, services: seq<Service>)
    requires |services| > 0
    requires RecreatableOne(def, naming, arns, services[0]) && Recreatable(def, naming, arns, services[1..])
    ensures Recreatable(def, naming, arns, services)
  {
    forall i | 0 <= i < |services|
      ensures RecreatableOne(def, naming, arns, services[i])
    {
      if i > 0 {
        assert services[i] == services[1..][i - 1];
      }
    }
  }

  /**
    Outside a dry run, when recreating succeeds every described service had a
    status, and the calls issued are exactly, in order, a forced delete and
    then a create from its definition with its registered ARN for each
    INACTIVE service; no other service is touched.
   */
  lemma {:induction false} RecreatedLog(api: Api, def: Definition, naming: Naming, p: Progress, services: seq<Service>)
    requires p.err.None?
    ensures var q := Recreated(api, def, naming, false, p, services);
      q.err.None? ==>
        Recreatable(def, naming, p.nameToTdArn, services) && q.log == p.log + Recreations(def, naming, p.nameToTdArn, services)
    decreases |services|
  {
    if services != [] {
      var q := RecreateInactive(api, def, naming, false, p, services[0]);
      var r := Recreated(api, def, naming, false, q, services[1..]);
      if r.err.None? {
        assert q.err.None?;
        RecreateOneLog(api, def, naming, p, services[0]);
        RecreatedLog(api, def, naming, q, services[1..]);
        RecreatableCons(def, naming, p.nameToTdArn, services);
        var head := RecreateActions(def, naming, p.nameToTdArn, services[0]);
        var tail := Recreations(def, naming, p.nameToTdArn, services[1..]);
        assert r.log == p.log + head + tail;
        assert Recreations(def, naming, p.nameToTdArn, services) == head + tail;
      }
    }
  }

  // ---------------------------------------------------------------------------
  // Updating services (deploy.go:132-177)

  /**
    The dry-run attribute diff as written: it compares with `o.Services[0]`,
    which does not exist when the service is not yet in ECS.
   */
  function DryRunAttributesAsWritten(out: Result<DescribeServicesOutput, string>, p: Progress): Progress {
    match out
    case Failure(m) => p.(err := Some(ApiError("DescribeServices", m)))
    case Success(o) => if o.services == [] then p.(err := Some(Crash("updateService: index out of range"))) else p
  }

  /** The dry-run attribute diff, skipped for a service ECS does not have: it only reads and prints. */
  function DryRunAttributes(out: Result<DescribeServicesOutput, string>, p: Progress): (q: Progress)
    requires p.err.None?
    ensures q.log == p.log && q.nameToTdArn == p.nameToTdArn
    ensures q.err.Some? <==> out.Failure?
  {
    match out
    case Failure(m) => p.(err := Some(ApiError("DescribeServices", m)))
    case Success(_) => p
  }

  /**
    A dry run of a first deploy with the attribute update asked: the new
    service comes back as a failure entry and the as-written code indexes an
    empty service list, while the corrected one goes on. The deploy command
    never sets the dry-run option, so only a direct caller of Deploy gets here.
   */
  lemma DryRunOfNewServiceCrashes(p: Progress, fullname: string)
    requires p.err.None?
    ensures var o := DescribeServicesOutput([ApiFailure("arn:aws:ecs:region:account:service/" + fullname, "MISSING")], []);
      && DryRunAttributesAsWritten(Success(o), p).err == Some(Crash("updateService: index out of range"))
      && DryRunAttributes(Success(o), p) == p
  {
  }

  /** The task-definition update the update loop sends for a service whose task definition has an ARN. */
  function TaskUpdate(def: Definition, naming: Naming, opt: DeployOption, arns: map<string, string>, name: string): Action
    requires name in def.nameToSrv && def.nameToSrv[name].taskDefinition in arns
  {
    UpdateService(UpdateServiceTaskInput(def.cluster, naming.fullName(name), arns[def.nameToSrv[name].taskDefinition], None, opt.forceNewDeployment))
  }

  /** The attribute update of a service, when asked. */
  function AttributeUpdates(def: Definition, naming: Naming, opt: DeployOption, name: string): seq<Action>
    requires name in def.nameToSrv
  {
    if opt.updateService
    then [UpdateService(UpdateServiceAttributesInput(def.cluster, naming.fullName(name), def.nameToSrv[name].srv, opt.forceNewDeployment))]
    else []
  }

  /**
    One pass of the update loop: the task-definition update (with the force
    flag), then, when asked, the attribute update. A dry run only describes.
   */
  function UpdateOne(api: Api, def: Definition, naming: Naming, opt: DeployOption, p: Progress, name: string): (q: Progress)
    requires name in def.nameToSrv
    ensures Extends(p, q, 3, opt.dryRun)
    ensures !opt.dryRun && def.nameToSrv[name].taskDefinition !in p.nameToTdArn ==>
      q.log == p.log && q.err == Some(BadReferenceUnnamed)
    ensures !opt.dryRun && def.nameToSrv[name].taskDefinition in p.nameToTdArn ==>
      |q.log| > |p.log| && q.log[|p.log|] == TaskUpdate(def, naming, opt, p.nameToTdArn, name)
    ensures !opt.dryRun && q.err.None? ==>
      q.log == p.log + [TaskUpdate(def, naming, opt, p.nameToTdArn, name)] + AttributeUpdates(def, naming, opt, name)
    ensures forall i :: |p.log| <= i < |q.log| ==>
      q.log[i].UpdateService? && (!opt.updateService ==> q.log[i].update.taskDefinition.Some?)
  {
    var fullname := naming.fullName(name);
    var sd := def.nameToSrv[name];
    var tasked :=
      if opt.dryRun then p
      else if sd.taskDefinition !in p.nameToTdArn then p.(err := Some(BadReferenceUnnamed))
      else Issue(api, p, TaskUpdate(def, naming, opt, p.nameToTdArn, name), "UpdateServiceTask");
    if tasked.err.Some? || !opt.updateService then tasked
    else if opt.dryRun then DryRunAttributes(api.describeServices(def.cluster, [fullname]), tasked)
    else Issue(api, tasked, UpdateService(UpdateServiceAttributesInput(def.cluster, fullname, sd.srv, opt.forceNewDeployment)),
      "UpdateServiceAttributes")
  }

  function Updated(api: Api, def: Definition, naming: Naming, opt: DeployOption, p: Progress, order: seq<string>): Progress
    requires forall k <- order :: k in def.nameToSrv
    decreases |order|
  {
    if order == [] || p.err.Some? then p
    else Updated(api, def, naming, opt, UpdateOne(api, def, naming, opt, p, order[0]), order[1..])
  }

  method UpdateServices(api: Api, def: Definition, naming: Naming, opt: DeployOption, order: seq<string>, p0: Progress)
    returns (p: Progress)
    requires forall k <- order :: k in def.nameToSrv
    requires p0.err.None?
    ensures p == Updated(api, def, naming, opt, p0, order)
  {
    p := p0;
    var i := 0;
    while i < |order|
      invariant 0 <= i <= |order| && p.err.None?
      invariant Updated(api, def, naming, opt, p0, order) == Updated(api, def, naming, opt, p, order[i..])
    {
      assert order[i..][1..] == order[i + 1..];
      var name := order[i];
      var srv := def.nameToSrv[name];
      var fullname := naming.fullName(name);
      if !opt.dryRun {
        if srv.taskDefinition !in p.nameToTdArn {
          return p.(err := Some(BadReferenceUnnamed));
        }
        var tdArn := p.nameToTdArn[srv.taskDefinition];
        p := Issue(api, p, UpdateService(UpdateServiceTaskInput(def.cluster, fullname, tdArn, None, opt.forceNewDeployment)),
          "UpdateServiceTask");
        if p.err.Some? {
          return;
        }
      }
      if opt.updateService {
        if opt.dryRun {
          var o := api.describeServices(def.cluster, [fullname]);
          if o.Failure? {
            return p.(err := Some(ApiError("DescribeServices", o.error)));
          }
        } else {
          p := Issue(api, p, UpdateService(UpdateServiceAttributesInput(def.cluster, fullname, srv.srv, opt.forceNewDeployment)),
            "UpdateServiceAttributes");
          if p.err.Some? {
            return;
          }
        }
      }
      i := i + 1;
    }
  }

  lemma {:induction false} UpdatedExtends(api: Api, def: Definition, naming: Naming, opt: DeployOption, p: Progress, order: seq<string>)
    requires forall k <- order :: k in def.nameToSrv
    ensures Extends(p, Updated(api, def, naming, opt, p, order), 3, opt.dryRun)
    decreases |order|
  {
    if order != [] && p.err.None? {
      var q := UpdateOne(api, def, naming, opt, p, order[0]);
      UpdatedExtends(api, def, naming, opt, q, order[1..]);
      ExtendsTrans(p, q, Updated(api, def, naming, opt, q, order[1..]), 3, opt.dryRun);
    }
  }

  /**
    Outside a dry run, when updating succeeds every service in the loop got
    its task-definition update, with the ARN registered for its task
    definition and the force flag.
   */
  lemma {:induction false} AllServicesUpdated(api: Api, def: Definition, naming: Naming, opt: DeployOption, p: Progress, order: seq<string>)
    requires forall k <- order :: k in def.nameToSrv
    requires p.err.None? && !opt.dryRun
    ensures var q := Updated(api, def, naming, opt, p, order);
      q.err.None? ==> forall k <- order ::
        def.nameToSrv[k].taskDefinition in p.nameToTdArn && TaskUpdate(def, naming, opt, p.nameToTdArn, k) in q.log
    decreases |order|
  {
    if order != [] {
      var q := UpdateOne(api, def, naming, opt, p, order[0]);
      var r := Updated(api, def, naming, opt, q, order[1..]);
      if r.err.None? {
        assert q.err.None?;
        AllServicesUpdated(api, def, naming, opt, q, order[1..]);
        UpdatedExtends(api, def, naming, opt, q, order[1..]);
        assert r.log[..|q.log|] == q.log;
        assert r.log[|p.log|] == q.log[|p.log|];
        forall k <- order
          ensures def.nameToSrv[k].taskDefinition in p.nameToTdArn && TaskUpdate(def, naming, opt, p.nameToTdArn, k) in r.log
        {
          if k != order[0] {
            assert k in order[1..];
          }
        }
      }
    }
  }

  /** Without the attribute option, every update the loop sends switches the task definition. */
  lemma {:induction false} OnlyTaskUpdates(api: Api, def: Definition, naming: Naming, opt: DeployOption, p: Progress, order: seq<string>)
    requires forall k <- order :: k in def.nameToSrv
    requires !opt.updateService
    ensures var q := Updated(api, def, naming, opt, p, order);
      forall i :: |p.log| <= i < |q.log| ==> q.log[i].UpdateService? && q.log[i].update.taskDefinition.Some?
    decreases |order|
  {
    if order != [] && p.err.None? {
      var q := UpdateOne(api, def, naming, opt, p, order[0]);
      OnlyTaskUpdates(api, def, naming, opt, q, order[1..]);
      assert var z := Updated(api, def, naming, opt, q, order[1..]);
        forall i :: |q.log| <= i < |z.log| ==> z.log[i].UpdateService? && z.log[i].update.taskDefinition.Some?;
      UpdatedExtends(api, def, naming, opt, q, order[1..]);
      var r := Updated(api, def, naming, opt, q, order[1..]);
      assert r.log[..|q.log|] == q.log;
      forall i | |p.log| <= i < |r.log|
        ensures r.log[i].UpdateService? && r.log[i].update.taskDefinition.Some?
      {
        if i < |q.log| {
          assert r.log[..|q.log|][i] == r.log[i];
          assert q.log[i].UpdateService? && (!opt.updateService ==> q.log[i].update.taskDefinition.Some?);
        }
      }
    }
  }

  // ---------------------------------------------------------------------------
  // Deploy (deploy.go:223-301)

  /** The services the describe and the wait name, in the iteration order. */
  function ServiceNames(naming: Naming, srvOrder: seq<string>): (names: seq<string>)
    ensures |names| == |srvOrder| && forall i :: 0 <= i < |srvOrder| ==> names[i] == naming.fullName(srvOrder[i])
  {
    MapSeq(srvOrder, naming.fullName)
  }

  function LogGroupStage(api: Api, def: Definition, opt: DeployOption, tdOrder: seq<string>, groupOrder: seq<string>, p: Progress)
    : Progress
    requires forall k <- tdOrder :: k in def.nameToTd
  {
    if p.err.Some? || !opt.autoLogGroup then p
    else LogGroupsCreated(api, def, opt.dryRun, tdOrder, groupOrder, p)
  }

  function ServiceStage(api: Api, def: Definition, naming: Naming, opt: DeployOption, srvOrder: seq<string>, updateOrder: seq<string>,
    p: Progress): Progress
    requires forall k <- updateOrder :: k in def.nameToSrv
  {
    if p.err.Some? || |def.nameToSrv| == 0 then p
    else
      var srvNames := ServiceNames(naming, srvOrder);
      var created := ServicesCreated(api, def, naming, opt.dryRun, p, srvNames);
      var updated := Updated(api, def, naming, opt, created, updateOrder);
      if updated.err.Some? || opt.noWait || opt.dryRun then updated
      else Issue(api, updated, WaitServicesStable(def.cluster, srvNames), "WaitServicesStable")
  }

  ghost predicate Iterates(def: Definition, tdOrder: seq<string>, srvOrder: seq<string>, updateOrder: seq<string>) {
    Enumerates(tdOrder, def.nameToTd.Keys) && Enumerates(srvOrder, def.nameToSrv.Keys) && Enumerates(updateOrder, def.nameToSrv.Keys)
  }

  /** The whole deploy: what it issues, in order, and the error it returns. */
  function DeployPlan(api: Api, resolved: Result<Definition, string>, naming: Naming, opt: DeployOption,
    tdOrder: seq<string>, groupOrder: seq<string>, srvOrder: seq<string>, updateOrder: seq<string>): Progress
    requires resolved.Success? ==> Iterates(resolved.value, tdOrder, srvOrder, updateOrder)
  {
    match resolved
    case Failure(m) => Start.(err := Some(ConfigFailed(m)))
    case Success(def) =>
      var registered := Registered(api, def, naming, opt.dryRun, Start, tdOrder);
      var grouped := LogGroupStage(api, def, opt, tdOrder, groupOrder, registered);
      ServiceStage(api, def, naming, opt, srvOrder, updateOrder, grouped)
  }

  /**
    Deploy. `resolved` is the outcome of ResolveConfigStack; the four orders
    are the iteration orders of the Go maps (task definitions, log groups,
    service names for the describe and wait, services for the update loop).
   */
  method Deploy(api: Api, resolved: Result<Definition, string>, naming: Naming, opt: DeployOption,
    tdOrder: seq<string>, groupOrder: seq<string>, srvOrder: seq<string>, updateOrder: seq<string>)
    returns (log: seq<Action>, err: Option<Error>)
    requires resolved.Success? ==> Iterates(resolved.value, tdOrder, srvOrder, updateOrder)
    requires resolved.Success? && GroupsAcross(resolved.value, {}, tdOrder).Success? ==>
      Enumerates(groupOrder, GroupsAcross(resolved.value, {}, tdOrder).value)
    ensures var plan := DeployPlan(api, resolved, naming, opt, tdOrder, groupOrder, srvOrder, updateOrder);
      log == plan.log && err == plan.err
  {
    if resolved.Failure? {
      return [], Some(ConfigFailed(resolved.error));
    }
    var def := resolved.value;
    var p := RegisterTaskDefinitions(api, def, naming, opt.dryRun, tdOrder);
    if p.err.Some? {
      return p.log, p.err;
    }
    if opt.autoLogGroup {
      p := CreateLogGroupIfNotExist(api, def, opt.dryRun, tdOrder, groupOrder, p);
      if p.err.Some? {
        return p.log, p.err;
      }
    }
    p := DeployServices(api, def, naming, opt, srvOrder, updateOrder, p);
    return p.log, p.err;
  }

  /** The service part of Deploy (deploy.go:271-295): describe and create, update, then wait. */
  method DeployServices(api: Api, def: Definition, naming: Naming, opt: DeployOption, srvOrder: seq<string>,
    updateOrder: seq<string>, p0: Progress) returns (p: Progress)
    requires forall k <- updateOrder :: k in def.nameToSrv
    requires p0.err.None?
    ensures p == ServiceStage(api, def, naming, opt, srvOrder, updateOrder, p0)
  {
    p := p0;
    if |def.nameToSrv| > 0 {
      var srvNames: seq<string> := [];
      var i := 0;
      while i < |srvOrder|
        invariant 0 <= i <= |srvOrder|
        invariant srvNames == ServiceNames(naming, srvOrder[..i])
      {
        srvNames := srvNames + [naming.fullName(srvOrder[i])];
        i := i + 1;
      }
      assert srvOrder[..i] == srvOrder;
      p := CreateServiceIfNotExist(api, def, naming, opt.dryRun, srvNames, p);
      if p.err.Some? {
        return;
      }
      p := UpdateServices(api, def, naming, opt, updateOrder, p);
      if p.err.Some? {
        return;
      }
      if !opt.noWait && !opt.dryRun {
        p := Issue(api, p, WaitServicesStable(def.cluster, srvNames), "WaitServicesStable");
      }
    }
  }

  // ---------------------------------------------------------------------------
  // What a deploy issues

  lemma LogGroupStageExtends(api: Api, def: Definition, opt: DeployOption, tdOrder: seq<string>, groupOrder: seq<string>, p: Progress)
    requires forall k <- tdOrder :: k in def.nameToTd
    ensures Extends(p, LogGroupStage(api, def, opt, tdOrder, groupOrder, p), 1, opt.dryRun)
  {
    if p.err.None? && opt.autoLogGroup && GroupsAcross(def, {}, tdOrder).Success? {
      GroupsEnsuredExtends(api, opt.dryRun, p, groupOrder);
    }
  }

  lemma ServicesCreatedExtends(api: Api, def: Definition, naming: Naming, dryRun: bool, p: Progress, srvNames: seq<string>)
    ensures Extends(p, ServicesCreated(api, def, naming, dryRun, p, srvNames), 2, dryRun)
  {
    var desc := api.describeServices(def.cluster, srvNames);
    if desc.Success? {
      CreatedAbsentExtends(api, def, naming, dryRun, p, desc.value.failures);
      var created := CreatedAbsent(api, def, naming, dryRun, p, desc.value.failures);
      if created.err.None? {
        RecreatedExtends(api, def, naming, dryRun, created, desc.value.services);
        ExtendsTrans(p, created, Recreated(api, def, naming, dryRun, created, desc.value.services), 2, dryRun);
      }
    }
  }

  /** The service stage before the wait: creations, then updates, ordered by phase, with the ARNs kept. */
  lemma ServiceStageSteps(api: Api, def: Definition, naming: Naming, opt: DeployOption, srvOrder: seq<string>,
    updateOrder: seq<string>, p: Progress) returns (updated: Progress)
    requires forall k <- updateOrder :: k in def.nameToSrv
    requires UpTo(p.log, 1) && p.err.None? && |def.nameToSrv| != 0
    ensures UpTo(updated.log, 3) && updated.nameToTdArn == p.nameToTdArn && (opt.dryRun ==> updated.log == p.log)
    ensures updated == Updated(api, def, naming, opt, ServicesCreated(api, def, naming, opt.dryRun, p, ServiceNames(naming, srvOrder)), updateOrder)
    ensures ServiceStage(api, def, naming, opt, srvOrder, updateOrder, p) ==
      if updated.err.Some? || opt.noWait || opt.dryRun then updated
      else Issue(api, updated, WaitServicesStable(def.cluster, ServiceNames(naming, srvOrder)), "WaitServicesStable")
  {
    var srvNames := ServiceNames(naming, srvOrder);
    var created := ServicesCreated(api, def, naming, opt.dryRun, p, srvNames);
    ServicesCreatedExtends(api, def, naming, opt.dryRun, p, srvNames);
    AddsUpTo(p.log, created.log, 2);
    updated := Updated(api, def, naming, opt, created, updateOrder);
    UpdatedExtends(api, def, naming, opt, created, updateOrder);
    AddsUpTo(created.log, updated.log, 3);
  }

  lemma UpToWeaken(log: seq<Action>, j: nat, k: nat)
    requires UpTo(log, j) && j <= k
    ensures UpTo(log, k)
  {
  }

  lemma AppendUpTo(log: seq<Action>, a: Action, k: nat)
    requires UpTo(log, k) && Phase(a) == k
    ensures UpTo(log + [a], k)
  {
  }

  /** A log that stops before phase 4 holds no wait. */
  lemma NoWaitBefore(log: seq<Action>, k: nat)
    requires UpTo(log, k) && k < 4
    ensures forall i :: 0 <= i < |log| ==> !log[i].WaitServicesStable?
  {
    forall i | 0 <= i < |log|
      ensures !log[i].WaitServicesStable?
    {
      assert Phase(log[i]) <= k;
    }
  }

  /** The service stage orders its actions by phase, keeps the ARNs, and issues nothing in a dry run. */
  lemma ServiceStageShape(api: Api, def: Definition, naming: Naming, opt: DeployOption, srvOrder: seq<string>,
    updateOrder: seq<string>, p: Progress)
    requires forall k <- updateOrder :: k in def.nameToSrv
    requires UpTo(p.log, 1)
    ensures var q := ServiceStage(api, def, naming, opt, srvOrder, updateOrder, p);
      && UpTo(q.log, 4) && q.nameToTdArn == p.nameToTdArn && (opt.dryRun ==> q.log == p.log)
  {
    if p.err.None? && |def.nameToSrv| != 0 {
      var updated := ServiceStageSteps(api, def, naming, opt, srvOrder, updateOrder, p);
      var stop := updated.err.Some? || opt.noWait || opt.dryRun;
      var w := WaitServicesStable(def.cluster, ServiceNames(naming, srvOrder));
      StageEndShape(p, updated, ServiceStage(api, def, naming, opt, srvOrder, updateOrder, p), w, stop, opt.dryRun);
    } else {
      UpToWeaken(p.log, 1, 4);
    }
  }

  /** The end of the service stage: the updates as they are, or followed by the wait. */
  lemma StageEndShape(p: Progress, updated: Progress, q: Progress, w: Action, stop: bool, dryRun: bool)
    requires UpTo(updated.log, 3) && updated.nameToTdArn == p.nameToTdArn && (dryRun ==> updated.log == p.log)
    requires stop ==> q == updated
    requires !stop ==> !dryRun && Phase(w) == 4 && q.log == updated.log + [w] && q.nameToTdArn == updated.nameToTdArn
    ensures UpTo(q.log, 4) && q.nameToTdArn == p.nameToTdArn && (dryRun ==> q.log == p.log)
  {
    UpToWeaken(updated.log, 3, 4);
    if !stop {
      AppendUpTo(updated.log, w, 4);
    }
  }

  /** The first two stages: registrations, then log groups, in phase order; the deploy continues with the service stage. */
  lemma DeployStages(api: Api, def: Definition, naming: Naming, opt: DeployOption,
    tdOrder: seq<string>, groupOrder: seq<string>, srvOrder: seq<string>, updateOrder: seq<string>) returns (grouped: Progress)
    requires Iterates(def, tdOrder, srvOrder, updateOrder)
    ensures forall k <- tdOrder :: k in def.nameToTd
    ensures forall k <- updateOrder :: k in def.nameToSrv
    ensures grouped == LogGroupStage(api, def, opt, tdOrder, groupOrder, Registered(api, def, naming, opt.dryRun, Start, tdOrder))
    ensures UpTo(grouped.log, 1) && grouped.nameToTdArn == Registered(api, def, naming, opt.dryRun, Start, tdOrder).nameToTdArn
    ensures opt.dryRun ==> grouped.log == []
    ensures DeployPlan(api, Success(def), naming, opt, tdOrder, groupOrder, srvOrder, updateOrder)
         == ServiceStage(api, def, naming, opt, srvOrder, updateOrder, grouped)
  {
    var registered := Registered(api, def, naming, opt.dryRun, Start, tdOrder);
    RegisteredExtends(api, def, naming, opt.dryRun, Start, tdOrder);
    AddsUpTo([], registered.log, 0);
    grouped := LogGroupStage(api, def, opt, tdOrder, groupOrder, registered);
    LogGroupStageExtends(api, def, opt, tdOrder, groupOrder, registered);
    AddsUpTo(registered.log, grouped.log, 1);
  }

  /**
    A deploy issues its calls phase by phase: every registration before any
    log group, every log group before any service creation or deletion, those
    before any update, and the stability wait last.
   */
  lemma DeployPhasesInOrder(api: Api, resolved: Result<Definition, string>, naming: Naming, opt: DeployOption,
    tdOrder: seq<string>, groupOrder: seq<string>, srvOrder: seq<string>, updateOrder: seq<string>)
    requires resolved.Success? ==> Iterates(resolved.value, tdOrder, srvOrder, updateOrder)
    ensures var log := DeployPlan(api, resolved, naming, opt, tdOrder, groupOrder, srvOrder, updateOrder).log;
      forall i, j :: 0 <= i < j < |log| ==> Phase(log[i]) <= Phase(log[j])
  {
    if resolved.Success? {
      var def := resolved.value;
      var grouped := DeployStages(api, def, naming, opt, tdOrder, groupOrder, srvOrder, updateOrder);
      ServiceStageShape(api, def, naming, opt, srvOrder, updateOrder, grouped);
    }
  }

  /** A dry run issues no register, log group, create, delete, update or wait call. */
  lemma DryRunIssuesNothing(api: Api, resolved: Result<Definition, string>, naming: Naming, opt: DeployOption,
    tdOrder: seq<string>, groupOrder: seq<string>, srvOrder: seq<string>, updateOrder: seq<string>)
    requires resolved.Success? ==> Iterates(resolved.value, tdOrder, srvOrder, updateOrder)
    requires opt.dryRun
    ensures DeployPlan(api, resolved, naming, opt, tdOrder, groupOrder, srvOrder, updateOrder).log == []
  {
    if resolved.Success? {
      var def := resolved.value;
      var grouped := DeployStages(api, def, naming, opt, tdOrder, groupOrder, srvOrder, updateOrder);
      ServiceStageShape(api, def, naming, opt, srvOrder, updateOrder, grouped);
    }
  }

  lemma ServiceStageWait(api: Api, def: Definition, naming: Naming, opt: DeployOption, srvOrder: seq<string>,
    updateOrder: seq<string>, p: Progress)
    requires forall k <- updateOrder :: k in def.nameToSrv
    requires UpTo(p.log, 1)
    ensures var q := ServiceStage(api, def, naming, opt, srvOrder, updateOrder, p);
      && ((exists i :: 0 <= i < |q.log| && q.log[i].WaitServicesStable?) ==> |def.nameToSrv| > 0 && !opt.noWait && !opt.dryRun)
      && (p.err.None? && |def.nameToSrv| > 0 && !opt.noWait && !opt.dryRun && q.err.None? ==>
            |q.log| > 0 && q.log[|q.log| - 1] == WaitServicesStable(def.cluster, ServiceNames(naming, srvOrder)))
  {
    if p.err.None? && |def.nameToSrv| != 0 {
      var updated := ServiceStageSteps(api, def, naming, opt, srvOrder, updateOrder, p);
      if updated.err.Some? || opt.noWait || opt.dryRun {
        NoWaitBefore(updated.log, 3);
      }
    } else {
      NoWaitBefore(p.log, 1);
    }
  }

  /** Outside a dry run, a service stage that succeeds updated every configured service with the ARNs it started from. */
  lemma ServiceStageUpdates(api: Api, def: Definition, naming: Naming, opt: DeployOption, srvOrder: seq<string>,
    updateOrder: seq<string>, p: Progress)
    requires Enumerates(updateOrder, def.nameToSrv.Keys)
    requires UpTo(p.log, 1) && p.err.None? && !opt.dryRun
    ensures var q := ServiceStage(api, def, naming, opt, srvOrder, updateOrder, p);
      q.err.None? ==> forall name <- def.nameToSrv ::
        def.nameToSrv[name].taskDefinition in p.nameToTdArn && TaskUpdate(def, naming, opt, p.nameToTdArn, name) in q.log
  {
    if |def.nameToSrv| != 0 {
      var updated := ServiceStageSteps(api, def, naming, opt, srvOrder, updateOrder, p);
      var created := ServicesCreated(api, def, naming, false, p, ServiceNames(naming, srvOrder));
      ServicesCreatedExtends(api, def, naming, false, p, ServiceNames(naming, srvOrder));
      var q := ServiceStage(api, def, naming, opt, srvOrder, updateOrder, p);
      if q.err.None? {
        assert updated.err.None? && created.err.None?;
        AllServicesUpdated(api, def, naming, opt, created, updateOrder);
        forall name <- def.nameToSrv
          ensures def.nameToSrv[name].taskDefinition in p.nameToTdArn && TaskUpdate(def, naming, opt, p.nameToTdArn, name) in q.log
        {
          assert name in updateOrder;
        }
      }
    } else {
      assert def.nameToSrv == map[];
    }
  }

  /**
    The stability wait is issued only when there are services and neither
    NoWait nor DryRun is set; when the deploy succeeds under those conditions
    it is the last call, for every service's full name.
   */
  lemma WaitGated(api: Api, resolved: Result<Definition, string>, naming: Naming, opt: DeployOption,
    tdOrder: seq<string>, groupOrder: seq<string>, srvOrder: seq<string>, updateOrder: seq<string>)
    requires resolved.Success? ==> Iterates(resolved.value, tdOrder, srvOrder, updateOrder)
    ensures var plan := DeployPlan(api, resolved, naming, opt, tdOrder, groupOrder, srvOrder, updateOrder);
      && ((exists i :: 0 <= i < |plan.log| && plan.log[i].WaitServicesStable?) ==>
            resolved.Success? && |resolved.value.nameToSrv| > 0 && !opt.noWait && !opt.dryRun)
      && (resolved.Success? && |resolved.value.nameToSrv| > 0 && !opt.noWait && !opt.dryRun && plan.err.None? ==>
            |plan.log| > 0 && plan.log[|plan.log| - 1] == WaitServicesStable(resolved.value.cluster, ServiceNames(naming, srvOrder)))
  {
    if resolved.Success? {
      var def := resolved.value;
      var grouped := DeployStages(api, def, naming, opt, tdOrder, groupOrder, srvOrder, updateOrder);
      ServiceStageWait(api, def, naming, opt, srvOrder, updateOrder, grouped);
    }
  }

  /**
    When a deploy outside a dry run succeeds, every configured service got a
    task-definition update carrying the ARN just registered for the task
    definition it refers to and the ForceNewDeployment flag.
   */
  lemma DeployUpdatesEveryService(api: Api, def: Definition, naming: Naming, opt: DeployOption,
    tdOrder: seq<string>, groupOrder: seq<string>, srvOrder: seq<string>, updateOrder: seq<string>)
    requires Iterates(def, tdOrder, srvOrder, updateOrder)
    requires !opt.dryRun
    ensures var plan := DeployPlan(api, Success(def), naming, opt, tdOrder, groupOrder, srvOrder, updateOrder);
      var arns := Registered(api, def, naming, false, Start, tdOrder).nameToTdArn;
      plan.err.None? ==> forall name <- def.nameToSrv ::
        def.nameToSrv[name].taskDefinition in arns && TaskUpdate(def, naming, opt, arns, name) in plan.log
  {
    var grouped := DeployStages(api, def, naming, opt, tdOrder, groupOrder, srvOrder, updateOrder);
    if grouped.err.None? {
      ServiceStageUpdates(api, def, naming, opt, srvOrder, updateOrder, grouped);
    }
  }
}
