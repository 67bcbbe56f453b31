/**
  Rollback (rollback.go): every described service is switched back to the
  revision listed right after its current one, then the services are waited
  on, then the rolled-back revisions are deregistered when asked.
 */
module Rollback {
  import opened Wrappers
  import opened Ecs
  import opened Client
  import opened EcsUtil
  import opened Listing
  import opened Deploy

  datatype RollbackOption = RollbackOption(
    noWait: bool,
    forceNewDeployment: bool,
    deregisterTaskDefinition: bool,
    dryRun: bool)

  /** What FindRollbackTarget returns for an ARN. */
  function Target(api: Api, arn: string): Result<string, Error> {
    Search(api.listTaskDefinitions(Family(arn)), arn, 0, false)
  }

  /** A described service whose rollback cannot start: no current revision, or no target for it. */
  predicate Blocked(api: Api, s: Service) {
    s.taskDefinition.None? || Target(api, s.taskDefinition.value).Failure?
  }

  /** The update that rolls a service back: the target ARN, its current desired count, and no forced deployment. */
  function RollbackUpdate(api: Api, cluster: string, s: Service): Action
    requires !Blocked(api, s) && s.serviceName.Some?
  {
    UpdateService(UpdateServiceTaskInput(cluster, s.serviceName.value, Target(api, s.taskDefinition.value).value, s.desiredCount, false))
  }

  /** One pass of the update loop (rollback.go:36-60). */
  function RollbackOne(api: Api, cluster: string, dryRun: bool, t: Trace, s: Service): (u: Trace)
    requires t.err.None?
    ensures Blocked(api, s) ==> u.log == t.log && u.err.Some?
    ensures dryRun ==> u.log == t.log
    ensures !dryRun && u.err.None? ==> !Blocked(api, s) && s.serviceName.Some? && u.log == t.log + [RollbackUpdate(api, cluster, s)]
    ensures u.log == t.log || (!Blocked(api, s) && s.serviceName.Some? && u.log == t.log + [RollbackUpdate(api, cluster, s)])
  {
    if s.taskDefinition.None? then t.(err := Some(Crash("Rollback: nil TaskDefinition")))
    else
      match Target(api, s.taskDefinition.value)
      case Failure(e) => t.(err := Some(e))
      case Success(target) =>
        if s.serviceName.None? then t.(err := Some(Crash("Rollback: nil ServiceName")))
        else if dryRun then t
        else Call(api, t, UpdateService(UpdateServiceTaskInput(cluster, s.serviceName.value, target, s.desiredCount, false)),
          "UpdateServiceTask")
  }

  function RolledBack(api: Api, cluster: string, dryRun: bool, t: Trace, services: seq<Service>): Trace
    decreases |services|
  {
    if services == [] || t.err.Some? then t
    else RolledBack(api, cluster, dryRun, RollbackOne(api, cluster, dryRun, t, services[0]), services[1..])
  }

  /** One pass of the deregister loop (rollback.go:76-89): the revision the service ran before the rollback. */
  function DeregisterOne(api: Api, dryRun: bool, t: Trace, s: Service): (u: Trace)
    ensures dryRun || s.taskDefinition.None? ==> u.log == t.log
    ensures !dryRun && s.taskDefinition.Some? ==> u.log == t.log + [DeregisterTaskDefinition(s.taskDefinition.value)]
  {
    if s.taskDefinition.None? then t.(err := Some(Crash("Rollback: nil TaskDefinition")))
    else if dryRun then t
    else Call(api, t, DeregisterTaskDefinition(s.taskDefinition.value), "DeregisterTaskDefinition")
  }

  function Deregistered(api: Api, dryRun: bool, t: Trace, services: seq<Service>): Trace
    decreases |services|
  {
    if services == [] || t.err.Some? then t
    else Deregistered(api, dryRun, DeregisterOne(api, dryRun, t, services[0]), services[1..])
  }

  /** The rollback after the describe: updates, then (unless NoWait) the wait and the deregistrations. */
  function AfterDescribe(api: Api, cluster: string, srvNames: seq<string>, opt: RollbackOption, services: seq<Service>): Trace {
    var updated := RolledBack(api, cluster, opt.dryRun, Trace([], None), services);
    if updated.err.Some? || opt.noWait then updated
    else
      var waited := if opt.dryRun then updated else Call(api, updated, WaitServicesStable(cluster, srvNames), "WaitServicesStable");
      if waited.err.Some? || !opt.deregisterTaskDefinition then waited
      else Deregistered(api, opt.dryRun, waited, services)
  }

  function RollbackPlan(api: Api, resolved: Result<Definition, string>, naming: Naming, opt: RollbackOption, srvOrder: seq<string>)
    : Trace
  {
    match resolved
    case Failure(m) => Trace([], Some(ConfigFailed(m)))
    case Success(def) =>
      var srvNames := ServiceNames(naming, srvOrder);
      match api.describeServices(def.cluster, srvNames)
      case Failure(m) => Trace([], Some(ApiError("DescribeServices", m)))
      case Success(desc) => AfterDescribe(api, def.cluster, srvNames, opt, desc.services)
  }

  /**
    Rollback. `resolved` is the outcome of ResolveConfigStack (with no extra
    parameters) and `srvOrder` the iteration order of its services.
   */
  method Rollback(api: Api, resolved: Result<Definition, string>, naming: Naming, opt: RollbackOption, srvOrder: seq<string>)
    returns (log: seq<Action>, err: Option<Error>)
    requires resolved.Success? ==> Enumerates(srvOrder, resolved.value.nameToSrv.Keys)
    ensures Trace(log, err) == RollbackPlan(api, resolved, naming, opt, srvOrder)
  {
    if resolved.Failure? {
      return [], Some(ConfigFailed(resolved.error));
    }
    var def := resolved.value;
    var srvNames: seq<string> := [];
    var i := 0;
    while i < |srvOrder|
      invariant 0 <= i <= |srvOrder|
      invariant srvNames == ServiceNames(naming, srvOrder[..i])
    {
      srvNames := srvNames + [naming.fullName(srvOrder[i])];
      i := i + 1;
    }
    assert srvOrder[..i] == srvOrder;
    var desc := api.describeServices(def.cluster, srvNames);
    if desc.Failure? {
      return [], Some(ApiError("DescribeServices", desc.error));
    }
    var t := UpdateAll(api, def.cluster, opt.dryRun, desc.value.services);
    if t.err.Some? || opt.noWait {
      return t.log, t.err;
    }
    if !opt.dryRun {
      t := Call(api, t, WaitServicesStable(def.cluster, srvNames), "WaitServicesStable");
      if t.err.Some? {
        return t.log, t.err;
      }
    }
    if opt.deregisterTaskDefinition {
      t := DeregisterAll(api, opt.dryRun, desc.value.services, t);
    }
    return t.log, t.err;
  }

  method UpdateAll(api: Api, cluster: string, dryRun: bool, services: seq<Service>) returns (t: Trace)
    ensures t == RolledBack(api, cluster, dryRun, Trace([], None), services)
  {
    t := Trace([], None);
    var i := 0;
    while i < |services|
      invariant 0 <= i <= |services| && t.err.None?
      invariant RolledBack(api, cluster, dryRun, Trace([], None), services) == RolledBack(api, cluster, dryRun, t, services[i..])
    {
      assert services[i..][1..] == services[i + 1..];
      var s := services[i];
      if s.taskDefinition.None? {
        return t.(err := Some(Crash("Rollback: nil TaskDefinition")));
      }
      var currentArn := s.taskDefinition.value;
      var targetArn := FindRollbackTarget(api, currentArn);
      if targetArn.Failure? {
        return t.(err := Some(targetArn.error));
      }
      if s.serviceName.None? {
        return t.(err := Some(Crash("Rollback: nil ServiceName")));
      }
      var fullname := s.serviceName.value;
      if !dryRun {
        t := Call(api, t, UpdateService(UpdateServiceTaskInput(cluster, fullname, targetArn.value, s.desiredCount, false)),
          "UpdateServiceTask");
        if t.err.Some? {
          return;
        }
      }
      i := i + 1;
    }
  }

  method DeregisterAll(api: Api, dryRun: bool, services: seq<Service>, t0: Trace) returns (t: Trace)
    requires t0.err.None?
    ensures t == Deregistered(api, dryRun, t0, services)
  {
    t := t0;
    var i := 0;
    while i < |services|
      invariant 0 <= i <= |services| && t.err.None?
      invariant Deregistered(api, dryRun, t0, services) == Deregistered(api, dryRun, t, services[i..])
    {
      assert services[i..][1..] == services[i + 1..];
      var s := services[i];
      if s.taskDefinition.None? {
        return t.(err := Some(Crash("Rollback: nil TaskDefinition")));
      }
      if !dryRun {
        t := Call(api, t, DeregisterTaskDefinition(s.taskDefinition.value), "DeregisterTaskDefinition");
        if t.err.Some? {
          return;
        }
      }
      i := i + 1;
    }
  }

  // ---------------------------------------------------------------------------
  // What a rollback issues

  /** When the update loop succeeds outside a dry run, service `i` got exactly the `i`-th update. */
  lemma RolledBackLog(api: Api, cluster: string, t: Trace, services: seq<Service>)
    requires t.err.None?
    ensures var u := RolledBack(api, cluster, false, t, services);
      u.err.None? ==>
        && |u.log| == |t.log| + |services| && u.log[..|t.log|] == t.log
        && forall i :: 0 <= i < |services| ==>
             !Blocked(api, services[i]) && services[i].serviceName.Some?
             && u.log[|t.log| + i] == RollbackUpdate(api, cluster, services[i])
  {
    RolledBackUpdates(api, cluster, t, services);
    var u := RolledBack(api, cluster, false, t, services);
    if u.err.None? {
      assert u.log[..|t.log|] == t.log;
    }
  }

  /** Every service can be rolled back: it has a current revision, a target and a name. */
  predicate Ready(api: Api, services: seq<Service>) {
    forall i :: 0 <= i < |services| ==> !Blocked(api, services[i]) && services[i].serviceName.Some?
  }

  /** The updates that roll back `services`, in order. */
  function Updates(api: Api, cluster: string, services: seq<Service>): (r: seq<Action>)
    requires Ready(api, services)
    ensures |r| == |services|
    ensures forall i :: 0 <= i < |services| ==> r[i] == RollbackUpdate(api, cluster, services[i])
    decreases |services|
  {
    if services == [] then []
    else [RollbackUpdate(api, cluster, services[0])] + Updates(api, cluster, services[1..])
  }

  /** A successful update loop appends exactly the updates of the services. */
  lemma {:induction false} RolledBackUpdates(api: Api, cluster: string, t: Trace, services: seq<Service>)
    requires t.err.None?
    ensures var u := RolledBack(api, cluster, false, t, services);
      u.err.None? ==> Ready(api, services) && u.log == t.log + Updates(api, cluster, services)
    decreases |services|
  {
    if services != [] {
      var v := RollbackOne(api, cluster, false, t, services[0]);
      var rest := services[1..];
      if v.err.None? {
        RolledBackUpdates(api, cluster, v, rest);
        var u := RolledBack(api, cluster, false, v, rest);
        assert RolledBack(api, cluster, false, t, services) == u;
        if u.err.None? {
          var x := RollbackUpdate(api, cluster, services[0]);
          ReadyCons(api, services);
          assert Updates(api, cluster, services) == [x] + Updates(api, cluster, rest);
          assert u.log == t.log + [x] + Updates(api, cluster, rest);
        }
      }
    }
  }

  /** A service whose rollback cannot start stops the loop with an error. */
  lemma {:induction false} BlockedAborts(api: Api, cluster: string, dryRun: bool, t: Trace, services: seq<Service>, k: nat)
    requires k < |services| && Blocked(api, services[k])
    ensures RolledBack(api, cluster, dryRun, t, services).err.Some?
    decreases |services|
  {
    if t.err.None? {
      var v := RollbackOne(api, cluster, dryRun, t, services[0]);
      if k > 0 {
        assert services[1..][k - 1] == services[k];
        BlockedAborts(api, cluster, dryRun, v, services[1..], k - 1);
      }
    }
  }

  /** In a dry run the update loop issues nothing. */
  lemma {:induction false} RolledBackDry(api: Api, cluster: string, t: Trace, services: seq<Service>)
    ensures RolledBack(api, cluster, true, t, services).log == t.log
    decreases |services|
  {
    if services != [] && t.err.None? {
      RolledBackDry(api, cluster, RollbackOne(api, cluster, true, t, services[0]), services[1..]);
    }
  }

  /** The update loop issues only updates. */
  lemma {:induction false} RolledBackUpdatesOnly(api: Api, cluster: string, dryRun: bool, t: Trace, services: seq<Service>)
    ensures var u := RolledBack(api, cluster, dryRun, t, services);
      |t.log| <= |u.log| && u.log[..|t.log|] == t.log && forall i :: |t.log| <= i < |u.log| ==> u.log[i].UpdateService?
    decreases |services|
  {
    if services != [] && t.err.None? {
      var v := RollbackOne(api, cluster, dryRun, t, services[0]);
      RolledBackUpdatesOnly(api, cluster, dryRun, v, services[1..]);
      var u := RolledBack(api, cluster, dryRun, v, services[1..]);
      assert u.log[..|t.log|] == u.log[..|v.log|][..|t.log|];
      forall i | |t.log| <= i < |u.log|
        ensures u.log[i].UpdateService?
      {
        if i < |v.log| {
          assert u.log[..|v.log|][i] == u.log[i];
        }
      }
    }
  }

  /** In a dry run the deregister loop issues nothing. */
  lemma {:induction false} DeregisteredDry(api: Api, t: Trace, services: seq<Service>)
    ensures Deregistered(api, true, t, services).log == t.log
    decreases |services|
  {
    if services != [] && t.err.None? {
      DeregisteredDry(api, DeregisterOne(api, true, t, services[0]), services[1..]);
    }
  }

  /** Every service has a current revision. */
  predicate HaveRevisions(services: seq<Service>) {
    forall i :: 0 <= i < |services| ==> services[i].taskDefinition.Some?
  }

  /** The deregistrations of the services' current revisions, in order. */
  function Deregistrations(services: seq<Service>): (r: seq<Action>)
    requires HaveRevisions(services)
    ensures |r| == |services|
    ensures forall i :: 0 <= i < |services| ==> r[i] == DeregisterTaskDefinition(services[i].taskDefinition.value)
    decreases |services|
  {
    if services == [] then []
    else [DeregisterTaskDefinition(services[0].taskDefinition.value)] + Deregistrations(services[1..])
  }

  /** A successful deregister loop appends exactly the deregistrations of the services' revisions from the describe. */
  lemma {:induction false} DeregisteredLog(api: Api, t: Trace, services: seq<Service>)
    requires t.err.None?
    ensures var u := Deregistered(api, false, t, services);
      u.err.None? ==> HaveRevisions(services) && u.log == t.log + Deregistrations(services)
    decreases |services|
  {
    if services != [] {
      var v := DeregisterOne(api, false, t, services[0]);
      var rest := services[1..];
      if v.err.None? {
        DeregisteredLog(api, v, rest);
        var u := Deregistered(api, false, v, rest);
        assert Deregistered(api, false, t, services) == u;
        if u.err.None? {
          var x := DeregisterTaskDefinition(services[0].taskDefinition.value);
          HaveRevisionsCons(services);
          assert Deregistrations(services) == [x] + Deregistrations(rest);
          assert u.log == t.log + [x] + Deregistrations(rest);
        }
      }
    }
  }

  /** A dry run issues no update, wait or deregister call. */
  lemma DryRunRollbackIssuesNothing(api: Api, cluster: string, srvNames: seq<string>, opt: RollbackOption, services: seq<Service>)
    requires opt.dryRun
    ensures AfterDescribe(api, cluster, srvNames, opt, services).log == []
  {
    RolledBackDry(api, cluster, Trace([], None), services);
    var updated := RolledBack(api, cluster, true, Trace([], None), services);
    if updated.err.None? {
      DeregisteredDry(api, updated, services);
    }
  }

  /** With NoWait the rollback returns after the updates: no wait and no deregistration, even when asked. */
  lemma NoWaitStopsAfterUpdates(api: Api, cluster: string, srvNames: seq<string>, opt: RollbackOption, services: seq<Service>)
    requires opt.noWait
    ensures var log := AfterDescribe(api, cluster, srvNames, opt, services).log;
      forall i :: 0 <= i < |log| ==> log[i].UpdateService?
  {
    RolledBackUpdatesOnly(api, cluster, opt.dryRun, Trace([], None), services);
  }

  /** A service with no rollback target aborts the whole rollback: no wait and no deregistration follow. */
  lemma MissingTargetAborts(api: Api, cluster: string, srvNames: seq<string>, opt: RollbackOption, services: seq<Service>, k: nat)
    requires k < |services| && Blocked(api, services[k])
    ensures var t := AfterDescribe(api, cluster, srvNames, opt, services);
      t.err.Some? && forall i :: 0 <= i < |t.log| ==> t.log[i].UpdateService?
  {
    BlockedAborts(api, cluster, opt.dryRun, Trace([], None), services, k);
    RolledBackUpdatesOnly(api, cluster, opt.dryRun, Trace([], None), services);
  }

  /** Outside a dry run and without NoWait, a successful rollback is the update loop's calls, the wait, then the deregister loop's calls. */
  lemma AfterDescribeParts(api: Api, cluster: string, srvNames: seq<string>, opt: RollbackOption, services: seq<Service>)
    requires !opt.dryRun && !opt.noWait
    ensures var t := AfterDescribe(api, cluster, srvNames, opt, services);
      var updated := RolledBack(api, cluster, false, Trace([], None), services);
      var waited := Call(api, updated, WaitServicesStable(cluster, srvNames), "WaitServicesStable");
      t.err.None? ==>
        && updated.err.None? && waited.err.None?
        && t == (if opt.deregisterTaskDefinition then Deregistered(api, false, waited, services) else waited)
  {
  }

  /** The updates and the wait: one update per described service, in order, then the wait for all the services. */
  lemma UpdatesThenWait(api: Api, cluster: string, srvNames: seq<string>, services: seq<Service>)
    ensures var updated := RolledBack(api, cluster, false, Trace([], None), services);
      var waited := Call(api, updated, WaitServicesStable(cluster, srvNames), "WaitServicesStable");
      updated.err.None? ==>
        && |waited.log| == |services| + 1
        && (forall i :: 0 <= i < |services| ==>
              !Blocked(api, services[i]) && services[i].serviceName.Some? && waited.log[i] == RollbackUpdate(api, cluster, services[i]))
        && waited.log[|services|] == WaitServicesStable(cluster, srvNames)
  {
    RolledBackLog(api, cluster, Trace([], None), services);
  }

  /**
    A complete rollback outside a dry run: one update per described service,
    in order, to its target with its desired count and no forced deployment;
    then the wait for all the services, and nothing more unless
    deregistration was asked.
   */
  lemma RollbackSequence(api: Api, cluster: string, srvNames: seq<string>, opt: RollbackOption, services: seq<Service>)
    requires !opt.dryRun && !opt.noWait
    ensures var t := AfterDescribe(api, cluster, srvNames, opt, services); var n := |services|;
      t.err.None? ==>
        && |t.log| >= n + 1
        && (forall i :: 0 <= i < n ==>
              !Blocked(api, services[i]) && services[i].serviceName.Some? && t.log[i] == RollbackUpdate(api, cluster, services[i]))
        && t.log[n] == WaitServicesStable(cluster, srvNames)
        && (!opt.deregisterTaskDefinition ==> |t.log| == n + 1)
  {
    var t := AfterDescribe(api, cluster, srvNames, opt, services);
    if t.err.None? {
      AfterDescribeParts(api, cluster, srvNames, opt, services);
      var updated := RolledBack(api, cluster, false, Trace([], None), services);
      var waited := Call(api, updated, WaitServicesStable(cluster, srvNames), "WaitServicesStable");
      UpdatesThenWait(api, cluster, srvNames, services);
      if opt.deregisterTaskDefinition {
        DeregisteredLog(api, waited, services);
      }
    }
  }

  /**
    After the wait, a complete rollback that was asked to deregister
    deregisters each service's revision from the initial describe (the one it
    ran before the rollback), in order.
   */
  lemma RollbackDeregisters(api: Api, cluster: string, srvNames: seq<string>, opt: RollbackOption, services: seq<Service>)
    requires !opt.dryRun && !opt.noWait && opt.deregisterTaskDefinition
    ensures var t := AfterDescribe(api, cluster, srvNames, opt, services); var n := |services|;
      t.err.None? ==>
        && |t.log| == 2 * n + 1
        && forall i :: 0 <= i < n ==>
             services[i].taskDefinition.Some? && t.log[n + 1 + i] == DeregisterTaskDefinition(services[i].taskDefinition.value)
  {
    var t := AfterDescribe(api, cluster, srvNames, opt, services);
    if t.err.None? {
      var waited := Waited(api, cluster, srvNames, opt, services, t);
      DeregisteredLog(api, waited, services);
      var d := Deregistrations(services);
      assert t.log == waited.log + d;
      forall i | 0 <= i < |services|
        ensures services[i].taskDefinition.Some? && t.log[|services| + 1 + i] == DeregisterTaskDefinition(services[i].taskDefinition.value)
      {
        assert t.log[|services| + 1 + i] == d[i];
      }
    }
  }

  lemma ReadyCons(api: Api, services: seq<Service>)
    requires services != [] && !Blocked(api, services[0]) && services[0].serviceName.Some?
    requires Ready(api, services[1..])
    ensures Ready(api, services)
  {
    forall i | 0 < i < |services|
      ensures !Blocked(api, services[i]) && services[i].serviceName.Some?
    {
      assert services[i] == services[1..][i - 1];
    }
  }

  lemma HaveRevisionsCons(services: seq<Service>)
    requires services != [] && services[0].taskDefinition.Some?
    requires HaveRevisions(services[1..])
    ensures HaveRevisions(services)
  {
    forall i | 0 < i < |services|
      ensures services[i].taskDefinition.Some?
    {
      assert services[i] == services[1..][i - 1];
    }
  }

  /** The trace a successful rollback with deregistration had after the wait: one entry per service, plus the wait. */
  lemma Waited(api: Api, cluster: string, srvNames: seq<string>, opt: RollbackOption, services: seq<Service>, t: Trace)
    returns (waited: Trace)
    requires !opt.dryRun && !opt.noWait && opt.deregisterTaskDefinition
    requires t == AfterDescribe(api, cluster, srvNames, opt, services) && t.err.None?
    ensures waited.err.None? && |waited.log| == |services| + 1 && t == Deregistered(api, false, waited, services)
  {
    AfterDescribeParts(api, cluster, srvNames, opt, services);
    var updated := RolledBack(api, cluster, false, Trace([], None), services);
    waited := Call(api, updated, WaitServicesStable(cluster, srvNames), "WaitServicesStable");
    RolledBackUpdates(api, cluster, Trace([], None), services);
  }
}
