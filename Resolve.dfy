/**
  Definition resolution (ecsceed.go, NewAppWithConfigStack): the parameters of
  all layers are flattened, later layers winning; then every task definition
  and service declared in the stack is rendered with those parameters and
  stored under its logical name, later declarations replacing earlier ones.

  Rendering a template file and parsing the JSON it produces is an opaque,
  fallible function of the Templates value, which gives a document: the values
  it states and the fields it mentions. Decoding that document into a task
  definition that already holds values (the `file` on top of the `base_file`)
  is modelled: it replaces the top-level fields the document mentions, keeps
  the others, and merges its containers into the existing ones by position.
 */
module Resolve {
  import opened Wrappers
  import opened Ecs
  import opened Config

  // ---------------------------------------------------------------------------
  // Parameters

  /** The parameters of all layers, a later layer's value replacing an earlier one's. */
  function Flatten(stack: seq<Config>): map<string, string>
  {
    if stack == [] then map[] else Flatten(stack[..|stack| - 1]) + stack[|stack| - 1].params
  }

  /** The params loop of ecsceed.go:52-57. */
  method FlattenParams(stack: seq<Config>) returns (params: map<string, string>)
    ensures params == Flatten(stack)
  {
    params := map[];
    for i := 0 to |stack|
      invariant params == Flatten(stack[..i])
    {
      var layer := stack[i].params;
      var todo := layer.Keys;
      ghost var before := params;
      while todo != {}
        invariant todo <= layer.Keys
        invariant params == before + map k | k in layer.Keys - todo :: layer[k]
        decreases todo
      {
        var k :| k in todo;
        params := params[k := layer[k]];
        todo := todo - {k};
      }
      assert layer == map k | k in layer.Keys - {} :: layer[k];
      assert stack[..i + 1][..i] == stack[..i];
    }
    assert stack[..|stack|] == stack;
  }

  /** A key is flattened exactly when some layer declares it. */
  lemma {:induction false} FlattenKeys(stack: seq<Config>, k: string)
    ensures k in Flatten(stack) <==> exists i :: 0 <= i < |stack| && k in stack[i].params
    decreases |stack|
  {
    if stack != [] {
      var init := stack[..|stack| - 1];
      FlattenKeys(init, k);
      if k in Flatten(init) {
        var i :| 0 <= i < |init| && k in init[i].params;
        assert k in stack[i].params;
      }
      if exists i :: 0 <= i < |stack| && k in stack[i].params {
        var i :| 0 <= i < |stack| && k in stack[i].params;
        if i < |init| {
          assert k in init[i].params;
        }
      }
    }
  }

  /** The flattened value of a key is the one of the last layer that declares it. */
  lemma {:induction false} FlattenLastWins(stack: seq<Config>, k: string, i: nat)
    requires i < |stack| && k in stack[i].params
    requires forall j :: i < j < |stack| ==> k !in stack[j].params
    ensures k in Flatten(stack) && Flatten(stack)[k] == stack[i].params[k]
    decreases |stack|
  {
    var init := stack[..|stack| - 1];
    if i < |init| {
      FlattenLastWins(init, k, i);
    }
  }

  // ---------------------------------------------------------------------------
  // Decoding a JSON document on top of an existing task definition
  //
  // encoding/json decodes an object into the value already there, one field at
  // a time: a field the document does not mention keeps its value. It decodes
  // element i of an array into element i of the slice already there, following
  // the non-nil *ContainerDefinition pointer, so that container keeps the
  // fields its own document does not mention. Elements past the old length
  // start from the zero value, and the slice is cut to the array's length.

  datatype TdField =
    | ArnField | FamilyField | RevisionField | StatusField | ContainerDefinitionsField
    | CpuField | MemoryField | ExecutionRoleArnField | NetworkModeField | PlacementConstraintsField
    | RequiresCompatibilitiesField | TaskRoleArnField | ProxyConfigurationField | VolumesField

  datatype TdValue =
    | OptString(s: Option<string>)
    | OptInt(n: Option<int>)
    | Containers(cds: seq<ContainerDefinition>)
    | Constraints(pcs: seq<PlacementConstraint>)
    | Strings(ss: seq<string>)
    | Proxy(pc: Option<ProxyConfiguration>)
    | Volumes(vs: seq<Volume>)

  datatype CdField =
    | NameField | ImageField | ContainerCpuField | CommandField | EnvironmentField
    | MountPointsField | PortMappingsField | VolumesFromField | SecretsField | LogConfigurationField

  datatype CdValue =
    | CdString(s: Option<string>)
    | CdInt(n: Option<int>)
    | CdStrings(ss: seq<string>)
    | CdEnvironment(kvs: seq<KeyValuePair>)
    | CdMountPoints(mps: seq<MountPoint>)
    | CdPortMappings(pms: seq<PortMapping>)
    | CdVolumesFrom(vfs: seq<VolumeFrom>)
    | CdSecrets(secrets: seq<Secret>)
    | CdLogConfiguration(lc: Option<LogConfiguration>)

  /** A decoded container document: its values, and which fields it mentions. */
  datatype CdDoc = CdDoc(value: ContainerDefinition, present: set<CdField>)

  /**
    A decoded task-definition document: its values, which top-level fields it
    mentions, and its `containerDefinitions` array as container documents (the
    `containerDefinitions` of `value` is not read).
   */
  datatype TdDoc = TdDoc(value: TaskDefinition, present: set<TdField>, containers: seq<CdDoc>)

  function Get(td: TaskDefinition, f: TdField): TdValue {
    match f
    case ArnField => OptString(td.taskDefinitionArn)
    case FamilyField => OptString(td.family)
    case RevisionField => OptInt(td.revision)
    case StatusField => OptString(td.status)
    case ContainerDefinitionsField => Containers(td.containerDefinitions)
    case CpuField => OptString(td.cpu)
    case MemoryField => OptString(td.memory)
    case ExecutionRoleArnField => OptString(td.executionRoleArn)
    case NetworkModeField => OptString(td.networkMode)
    case PlacementConstraintsField => Constraints(td.placementConstraints)
    case RequiresCompatibilitiesField => Strings(td.requiresCompatibilities)
    case TaskRoleArnField => OptString(td.taskRoleArn)
    case ProxyConfigurationField => Proxy(td.proxyConfiguration)
    case VolumesField => Volumes(td.volumes)
  }

  function GetCd(cd: ContainerDefinition, f: CdField): CdValue {
    match f
    case NameField => CdString(cd.name)
    case ImageField => CdString(cd.image)
    case ContainerCpuField => CdInt(cd.cpu)
    case CommandField => CdStrings(cd.command)
    case EnvironmentField => CdEnvironment(cd.environment)
    case MountPointsField => CdMountPoints(cd.mountPoints)
    case PortMappingsField => CdPortMappings(cd.portMappings)
    case VolumesFromField => CdVolumesFrom(cd.volumesFrom)
    case SecretsField => CdSecrets(cd.secrets)
    case LogConfigurationField => CdLogConfiguration(cd.logConfiguration)
  }

  /** Two task definitions that agree on every field are equal. */
  lemma FieldsDetermine(a: TaskDefinition, b: TaskDefinition)
    requires forall f :: Get(a, f) == Get(b, f)
    ensures a == b
  {
    SameHead(a, b);
    SameTail(a, b);
  }

  lemma SameHead(a: TaskDefinition, b: TaskDefinition)
    requires forall f :: Get(a, f) == Get(b, f)
    ensures a.taskDefinitionArn == b.taskDefinitionArn && a.family == b.family && a.revision == b.revision
    ensures a.status == b.status && a.containerDefinitions == b.containerDefinitions && a.cpu == b.cpu && a.memory == b.memory
  {
    assert Get(a, ArnField) == Get(b, ArnField) && Get(a, FamilyField) == Get(b, FamilyField);
    assert Get(a, RevisionField) == Get(b, RevisionField) && Get(a, StatusField) == Get(b, StatusField);
    assert Get(a, ContainerDefinitionsField) == Get(b, ContainerDefinitionsField);
    assert Get(a, CpuField) == Get(b, CpuField) && Get(a, MemoryField) == Get(b, MemoryField);
  }

  lemma SameTail(a: TaskDefinition, b: TaskDefinition)
    requires forall f :: Get(a, f) == Get(b, f)
    ensures a.executionRoleArn == b.executionRoleArn && a.networkMode == b.networkMode
    ensures a.placementConstraints == b.placementConstraints && a.requiresCompatibilities == b.requiresCompatibilities
    ensures a.taskRoleArn == b.taskRoleArn && a.proxyConfiguration == b.proxyConfiguration && a.volumes == b.volumes
  {
    assert Get(a, ExecutionRoleArnField) == Get(b, ExecutionRoleArnField);
    assert Get(a, NetworkModeField) == Get(b, NetworkModeField);
    assert Get(a, PlacementConstraintsField) == Get(b, PlacementConstraintsField);
    assert Get(a, RequiresCompatibilitiesField) == Get(b, RequiresCompatibilitiesField);
    assert Get(a, TaskRoleArnField) == Get(b, TaskRoleArnField);
    assert Get(a, ProxyConfigurationField) == Get(b, ProxyConfigurationField);
    assert Get(a, VolumesField) == Get(b, VolumesField);
  }

  function Pick<T>(replace: bool, given: T, kept: T): T {
    if replace then given else kept
  }

  /** json.Decode of one container document into the container `cd`. */
  function DecodeContainer(cd: ContainerDefinition, doc: CdDoc): ContainerDefinition
  {
    var p, v := doc.present, doc.value;
    ContainerDefinition(
      Pick(NameField in p, v.name, cd.name),
      Pick(ImageField in p, v.image, cd.image),
      Pick(ContainerCpuField in p, v.cpu, cd.cpu),
      Pick(CommandField in p, v.command, cd.command),
      Pick(EnvironmentField in p, v.environment, cd.environment),
      Pick(MountPointsField in p, v.mountPoints, cd.mountPoints),
      Pick(PortMappingsField in p, v.portMappings, cd.portMappings),
      Pick(VolumesFromField in p, v.volumesFrom, cd.volumesFrom),
      Pick(SecretsField in p, v.secrets, cd.secrets),
      Pick(LogConfigurationField in p, v.logConfiguration, cd.logConfiguration))
  }

  /** json.Decode of a `containerDefinitions` array into the slice `cds`, element by element. */
  function DecodeContainers(cds: seq<ContainerDefinition>, docs: seq<CdDoc>): (r: seq<ContainerDefinition>)
    ensures |r| == |docs|
  {
    seq(|docs|, i requires 0 <= i < |docs| =>
      DecodeContainer(if i < |cds| then cds[i] else EmptyContainerDefinition, docs[i]))
  }

  /** The containers of a task definition after decoding `doc` into it. */
  function ContainersAfter(cds: seq<ContainerDefinition>, doc: TdDoc): seq<ContainerDefinition> {
    if ContainerDefinitionsField in doc.present then DecodeContainers(cds, doc.containers) else cds
  }

  /** json.Decode into `td`. */
  function DecodeInto(td: TaskDefinition, doc: TdDoc): TaskDefinition
  {
    var p, v := doc.present, doc.value;
    TaskDefinition(
      Pick(ArnField in p, v.taskDefinitionArn, td.taskDefinitionArn),
      Pick(FamilyField in p, v.family, td.family),
      Pick(RevisionField in p, v.revision, td.revision),
      Pick(StatusField in p, v.status, td.status),
      ContainersAfter(td.containerDefinitions, doc),
      Pick(CpuField in p, v.cpu, td.cpu),
      Pick(MemoryField in p, v.memory, td.memory),
      Pick(ExecutionRoleArnField in p, v.executionRoleArn, td.executionRoleArn),
      Pick(NetworkModeField in p, v.networkMode, td.networkMode),
      Pick(PlacementConstraintsField in p, v.placementConstraints, td.placementConstraints),
      Pick(RequiresCompatibilitiesField in p, v.requiresCompatibilities, td.requiresCompatibilities),
      Pick(TaskRoleArnField in p, v.taskRoleArn, td.taskRoleArn),
      Pick(ProxyConfigurationField in p, v.proxyConfiguration, td.proxyConfiguration),
      Pick(VolumesField in p, v.volumes, td.volumes))
  }

  /** A container field the document mentions comes from it; any other is kept. */
  lemma DecodeContainerField(cd: ContainerDefinition, doc: CdDoc, f: CdField)
    ensures GetCd(DecodeContainer(cd, doc), f) == if f in doc.present then GetCd(doc.value, f) else GetCd(cd, f)
  {
  }

  /**
    Decoding replaces the top-level fields the document mentions and keeps the
    others; a mentioned `containerDefinitions` is as long as the document's
    array, and its element i is the document's container i decoded into the
    old container i, or into the zero container past the old length.
   */
  lemma DecodeIntoField(td: TaskDefinition, doc: TdDoc, f: TdField)
    ensures f != ContainerDefinitionsField ==>
      Get(DecodeInto(td, doc), f) == if f in doc.present then Get(doc.value, f) else Get(td, f)
    ensures var cds := DecodeInto(td, doc).containerDefinitions;
      if ContainerDefinitionsField !in doc.present then cds == td.containerDefinitions
      else
        && |cds| == |doc.containers|
        && forall i :: 0 <= i < |cds| ==>
             cds[i] == DecodeContainer(if i < |td.containerDefinitions| then td.containerDefinitions[i] else EmptyContainerDefinition, doc.containers[i])
  {
  }

  lemma DecodeIntoFields(td: TaskDefinition, doc: TdDoc)
    ensures forall f | f != ContainerDefinitionsField :: Get(DecodeInto(td, doc), f) == if f in doc.present then Get(doc.value, f) else Get(td, f)
  {
    forall f | f != ContainerDefinitionsField {
      DecodeIntoField(td, doc, f);
    }
  }

  /** The values a document states: its fields, with its containers' values. */
  function DocValue(doc: TdDoc): TaskDefinition {
    doc.value.(containerDefinitions := seq(|doc.containers|, i requires 0 <= i < |doc.containers| => doc.containers[i].value))
  }

  /** A container document that mentions every field decodes to its own values. */
  lemma DecodeCompleteContainer(cd: ContainerDefinition, doc: CdDoc)
    requires forall f: CdField :: f in doc.present
    ensures DecodeContainer(cd, doc) == doc.value
  {
    assert NameField in doc.present && ImageField in doc.present && ContainerCpuField in doc.present;
    assert CommandField in doc.present && EnvironmentField in doc.present && MountPointsField in doc.present;
    assert PortMappingsField in doc.present && VolumesFromField in doc.present && SecretsField in doc.present;
    assert LogConfigurationField in doc.present;
  }

  /**
    A document that mentions every field, and whose containers each mention
    every field, decodes to its own values, whatever it is decoded into.
   */
  lemma DecodeCompleteDoc(td: TaskDefinition, doc: TdDoc)
    requires forall f: TdField :: f in doc.present
    requires forall i, f: CdField :: 0 <= i < |doc.containers| ==> f in doc.containers[i].present
    ensures DecodeInto(td, doc) == DocValue(doc)
  {
    DecodeCompleteArray(td.containerDefinitions, doc.containers);
    assert ArnField in doc.present && FamilyField in doc.present && RevisionField in doc.present;
    assert StatusField in doc.present && ContainerDefinitionsField in doc.present && CpuField in doc.present;
    assert MemoryField in doc.present && ExecutionRoleArnField in doc.present && NetworkModeField in doc.present;
    assert PlacementConstraintsField in doc.present && RequiresCompatibilitiesField in doc.present;
    assert TaskRoleArnField in doc.present && ProxyConfigurationField in doc.present && VolumesField in doc.present;
  }

  lemma DecodeCompleteArray(cds: seq<ContainerDefinition>, docs: seq<CdDoc>)
    requires forall i, f: CdField :: 0 <= i < |docs| ==> f in docs[i].present
    ensures DecodeContainers(cds, docs) == seq(|docs|, i requires 0 <= i < |docs| => docs[i].value)
  {
    forall i | 0 <= i < |docs|
      ensures DecodeContainers(cds, docs)[i] == docs[i].value
    {
      DecodeCompleteContainer(if i < |cds| then cds[i] else EmptyContainerDefinition, docs[i]);
    }
  }


  /** A document that mentions no field leaves the value as it was. */
  lemma DecodeEmptyDoc(td: TaskDefinition, v: TaskDefinition, cs: seq<CdDoc>)
    ensures DecodeInto(td, TdDoc(v, {}, cs)) == td
  {
    DecodeIntoFields(td, TdDoc(v, {}, cs));
    FieldsDetermine(DecodeInto(td, TdDoc(v, {}, cs)), td);
  }

  /** One container document holding what either mentions, the second winning. */
  function CombineContainer(a: CdDoc, b: CdDoc): CdDoc {
    CdDoc(DecodeContainer(a.value, b), a.present + b.present)
  }

  /** The second array merged into the first element by element, cut to the second's length. */
  function CombineContainers(a: seq<CdDoc>, b: seq<CdDoc>): (r: seq<CdDoc>)
    ensures |r| == |b|
  {
    seq(|b|, i requires 0 <= i < |b| => if i < |a| then CombineContainer(a[i], b[i]) else b[i])
  }

  /** One task-definition document holding what either mentions, the second winning. */
  function Combine(a: TdDoc, b: TdDoc): TdDoc {
    TdDoc(DecodeInto(a.value, b), a.present + b.present, CombinedArray(a, b))
  }

  function CombinedArray(a: TdDoc, b: TdDoc): seq<CdDoc> {
    if ContainerDefinitionsField !in b.present then a.containers
    else if ContainerDefinitionsField !in a.present then b.containers
    else CombineContainers(a.containers, b.containers)
  }

  /** The containers after two documents are those after their combination. */
  lemma ContainersTwice(cds: seq<ContainerDefinition>, a: TdDoc, b: TdDoc)
    requires ContainerDefinitionsField in a.present ==> |cds| <= |a.containers|
    ensures ContainersAfter(ContainersAfter(cds, a), b)
         == ContainersAfter(cds, TdDoc(a.value, a.present + b.present, CombinedArray(a, b)))
  {
    if ContainerDefinitionsField in a.present && ContainerDefinitionsField in b.present {
      var once := DecodeContainers(cds, a.containers);
      var merged := CombineContainers(a.containers, b.containers);
      forall i | 0 <= i < |b.containers|
        ensures DecodeContainers(once, b.containers)[i] == DecodeContainers(cds, merged)[i]
      {
        var cd := if i < |cds| then cds[i] else EmptyContainerDefinition;
        if i < |a.containers| {
          DecodeContainerTwice(cd, a.containers[i], b.containers[i]);
        }
      }
    }
  }

  /** Decoding two container documents in turn is decoding their combination. */
  lemma DecodeContainerTwice(cd: ContainerDefinition, a: CdDoc, b: CdDoc)
    ensures DecodeContainer(DecodeContainer(cd, a), b) == DecodeContainer(cd, CombineContainer(a, b))
  {
  }

  /**
    Decoding two documents in turn is decoding one document that mentions what
    either mentions, the second winning, with the second's containers merged
    into the first's. This holds when the first document's array is at least
    as long as the containers already there (as for the zero value): element
    past the first array's length restart from the zero container.
   */
  lemma DecodeTwice(td: TaskDefinition, a: TdDoc, b: TdDoc)
    requires ContainerDefinitionsField in a.present ==> |td.containerDefinitions| <= |a.containers|
    ensures DecodeInto(DecodeInto(td, a), b) == DecodeInto(td, Combine(a, b))
  {
    ContainersTwice(td.containerDefinitions, a, b);
  }


  // ---------------------------------------------------------------------------
  // Rendering the declared definitions

  /**
    text/template + encoding/json on a file. Paths are joined as the loader
    joins them, with the file system's filepath.Abs(filepath.Join(..)).
   */
  datatype Templates = Templates(
    fs: FileSystem,
    renderTaskDefinition: (string, map<string, string>) -> Result<TdDoc, string>,
    renderService: (string, map<string, string>) -> Result<Service, string>)

  datatype ResolveError = PathFailed(message: string) | RenderFailed(path: string, message: string)

  /** One declaration, with the directory of the layer that made it. */
  datatype TdEntry = TdEntry(dir: string, decl: ConfigTaskDef)
  datatype ServiceEntry = ServiceEntry(dir: string, decl: ConfigService)

  function TdEntriesOf(c: Config): (es: seq<TdEntry>)
    ensures |es| == |c.taskDefinitions|
    ensures forall j :: 0 <= j < |es| ==> es[j] == TdEntry(c.dir, c.taskDefinitions[j])
  {
    seq(|c.taskDefinitions|, j requires 0 <= j < |c.taskDefinitions| => TdEntry(c.dir, c.taskDefinitions[j]))
  }

  function ServiceEntriesOf(c: Config): (es: seq<ServiceEntry>)
    ensures |es| == |c.services|
    ensures forall j :: 0 <= j < |es| ==> es[j] == ServiceEntry(c.dir, c.services[j])
  {
    seq(|c.services|, j requires 0 <= j < |c.services| => ServiceEntry(c.dir, c.services[j]))
  }

  /** Every task-definition declaration of the stack, in stack order. */
  function TdEntries(stack: seq<Config>): seq<TdEntry> {
    if stack == [] then [] else TdEntries(stack[..|stack| - 1]) + TdEntriesOf(stack[|stack| - 1])
  }

  function ServiceEntries(stack: seq<Config>): seq<ServiceEntry> {
    if stack == [] then [] else ServiceEntries(stack[..|stack| - 1]) + ServiceEntriesOf(stack[|stack| - 1])
  }

  /** Renders one template file and decodes it on top of `td`. */
  function DecodeFile(t: Templates, dir: string, file: string, params: map<string, string>, td: TaskDefinition)
    : Result<TaskDefinition, ResolveError>
  {
    match t.fs.absJoin(dir, file)
    case Failure(m) => Failure(PathFailed(m))
    case Success(path) =>
      match t.renderTaskDefinition(path, params)
      case Failure(m) => Failure(RenderFailed(path, m))
      case Success(doc) => Success(DecodeInto(td, doc))
  }

  /** One task definition: the base file (when named) decoded into the zero value, then the file (when named) on top. */
  function ResolveTd(t: Templates, e: TdEntry, params: map<string, string>): Result<TaskDefinition, ResolveError> {
    var fromBase :=
      if |e.decl.baseFile| > 0 then DecodeFile(t, e.dir, e.decl.baseFile, params, EmptyTaskDefinition)
      else Success(EmptyTaskDefinition);
    if fromBase.Failure? then fromBase
    else if |e.decl.file| > 0 then DecodeFile(t, e.dir, e.decl.file, params, fromBase.value)
    else fromBase
  }

  /** One service: its file decoded into the zero value; the file is rendered even when its name is empty. */
  function ResolveService(t: Templates, e: ServiceEntry, params: map<string, string>): Result<Service, ResolveError> {
    match t.fs.absJoin(e.dir, e.decl.file)
    case Failure(m) => Failure(PathFailed(m))
    case Success(path) =>
      match t.renderService(path, params)
      case Failure(m) => Failure(RenderFailed(path, m))
      case Success(srv) => Success(srv)
  }

  function ResolveTds(t: Templates, es: seq<TdEntry>, params: map<string, string>)
    : Result<map<string, TaskDefinition>, ResolveError>
  {
    if es == [] then Success(map[])
    else
      var init := ResolveTds(t, es[..|es| - 1], params);
      var e := es[|es| - 1];
      if init.Failure? then init
      else Store(init.value, e.decl.name, ResolveTd(t, e, params))
  }

  /** Stores a resolved value under its name, or passes the failure on. */
  function Store<V>(m: map<string, V>, name: string, r: Result<V, ResolveError>): Result<map<string, V>, ResolveError> {
    match r
    case Failure(err) => Failure(err)
    case Success(v) => Success(m[name := v])
  }

  function ResolveServices(t: Templates, es: seq<ServiceEntry>, params: map<string, string>)
    : Result<map<string, Service>, ResolveError>
  {
    if es == [] then Success(map[])
    else
      var init := ResolveServices(t, es[..|es| - 1], params);
      var e := es[|es| - 1];
      if init.Failure? then init
      else Store(init.value, e.decl.name, ResolveService(t, e, params))
  }

  /** The resolved definitions: logical name to task definition and to service. */
  datatype App = App(nameToTd: map<string, TaskDefinition>, nameToSrv: map<string, Service>)

  /** All task definitions are resolved first, then all services, every one with the fully flattened parameters. */
  function Resolved(t: Templates, stack: seq<Config>): Result<App, ResolveError> {
    var params := Flatten(stack);
    match ResolveTds(t, TdEntries(stack), params)
    case Failure(e) => Failure(e)
    case Success(tds) =>
      match ResolveServices(t, ServiceEntries(stack), params)
      case Failure(e) => Failure(e)
      case Success(srvs) => Success(App(tds, srvs))
  }

  /** One iteration of the task-definition loop (ecsceed.go:62-83). */
  method DecodeTaskDefinition(t: Templates, e: TdEntry, params: map<string, string>) returns (r: Result<TaskDefinition, ResolveError>)
    ensures r == ResolveTd(t, e, params)
  {
    var td := EmptyTaskDefinition;
    if |e.decl.baseFile| > 0 {
      var path := t.fs.absJoin(e.dir, e.decl.baseFile);
      if path.Failure? {
        return Failure(PathFailed(path.error));
      }
      var doc := t.renderTaskDefinition(path.value, params);
      if doc.Failure? {
        return Failure(RenderFailed(path.value, doc.error));
      }
      td := DecodeInto(td, doc.value);
    }
    if |e.decl.file| > 0 {
      var path := t.fs.absJoin(e.dir, e.decl.file);
      if path.Failure? {
        return Failure(PathFailed(path.error));
      }
      var doc := t.renderTaskDefinition(path.value, params);
      if doc.Failure? {
        return Failure(RenderFailed(path.value, doc.error));
      }
      td := DecodeInto(td, doc.value);
    }
    return Success(td);
  }

  /** The inner task-definition loop over one layer (ecsceed.go:61-88). */
  method ResolveLayerTds(t: Templates, c: Config, params: map<string, string>,
                         ghost seen: seq<TdEntry>, nameToTd: map<string, TaskDefinition>)
    returns (r: Result<map<string, TaskDefinition>, ResolveError>)
    requires ResolveTds(t, seen, params) == Success(nameToTd)
    ensures r == ResolveTds(t, seen + TdEntriesOf(c), params)
  {
    var m := nameToTd;
    assert seen + TdEntriesOf(c)[..0] == seen;
    for j := 0 to |c.taskDefinitions|
      invariant ResolveTds(t, seen + TdEntriesOf(c)[..j], params) == Success(m)
    {
      var tdc := c.taskDefinitions[j];
      var td := DecodeTaskDefinition(t, TdEntry(c.dir, tdc), params);
      LayerTdStep(t, c, params, seen, j, m);
      if td.Failure? {
        return Failure(td.error);
      }
      m := m[tdc.name := td.value];
    }
    assert TdEntriesOf(c)[..|c.taskDefinitions|] == TdEntriesOf(c);
    return Success(m);
  }

  /** The task-definition loops of ecsceed.go:59-89. */
  method ResolveTaskDefinitions(t: Templates, stack: seq<Config>, params: map<string, string>)
    returns (r: Result<map<string, TaskDefinition>, ResolveError>)
    ensures r == ResolveTds(t, TdEntries(stack), params)
  {
    var nameToTd: map<string, TaskDefinition> := map[];
    for i := 0 to |stack|
      invariant ResolveTds(t, TdEntries(stack[..i]), params) == Success(nameToTd)
    {
      assert stack[..i + 1][..i] == stack[..i];
      var layer := ResolveLayerTds(t, stack[i], params, TdEntries(stack[..i]), nameToTd);
      if layer.Failure? {
        TdEntriesPrefix(stack, i + 1);
        PrefixFailureTds(t, TdEntries(stack[..i + 1]), TdEntries(stack), params);
        return layer;
      }
      nameToTd := layer.value;
    }
    assert stack[..|stack|] == stack;
    return Success(nameToTd);
  }

  /** One iteration of the service loop (ecsceed.go:93-107). */
  method DecodeService(t: Templates, e: ServiceEntry, params: map<string, string>) returns (r: Result<Service, ResolveError>)
    ensures r == ResolveService(t, e, params)
  {
    var path := t.fs.absJoin(e.dir, e.decl.file);
    if path.Failure? {
      return Failure(PathFailed(path.error));
    }
    var rendered := t.renderService(path.value, params);
    if rendered.Failure? {
      return Failure(RenderFailed(path.value, rendered.error));
    }
    return Success(rendered.value);
  }

  /** The inner service loop over one layer (ecsceed.go:93-108). */
  method ResolveLayerServices(t: Templates, c: Config, params: map<string, string>,
                              ghost seen: seq<ServiceEntry>, nameToSrv: map<string, Service>)
    returns (r: Result<map<string, Service>, ResolveError>)
    requires ResolveServices(t, seen, params) == Success(nameToSrv)
    ensures r == ResolveServices(t, seen + ServiceEntriesOf(c), params)
  {
    var m := nameToSrv;
    assert seen + ServiceEntriesOf(c)[..0] == seen;
    for j := 0 to |c.services|
      invariant ResolveServices(t, seen + ServiceEntriesOf(c)[..j], params) == Success(m)
    {
      var sc := c.services[j];
      var srv := DecodeService(t, ServiceEntry(c.dir, sc), params);
      LayerServiceStep(t, c, params, seen, j, m);
      if srv.Failure? {
        return Failure(srv.error);
      }
      m := m[sc.name := srv.value];
    }
    assert ServiceEntriesOf(c)[..|c.services|] == ServiceEntriesOf(c);
    return Success(m);
  }

  /** The service loops of ecsceed.go:91-109. */
  method ResolveServiceDefinitions(t: Templates, stack: seq<Config>, params: map<string, string>)
    returns (r: Result<map<string, Service>, ResolveError>)
    ensures r == ResolveServices(t, ServiceEntries(stack), params)
  {
    var nameToSrv: map<string, Service> := map[];
    for i := 0 to |stack|
      invariant ResolveServices(t, ServiceEntries(stack[..i]), params) == Success(nameToSrv)
    {
      assert stack[..i + 1][..i] == stack[..i];
      var layer := ResolveLayerServices(t, stack[i], params, ServiceEntries(stack[..i]), nameToSrv);
      if layer.Failure? {
        ServiceEntriesPrefix(stack, i + 1);
        PrefixFailureServices(t, ServiceEntries(stack[..i + 1]), ServiceEntries(stack), params);
        return layer;
      }
      nameToSrv := layer.value;
    }
    assert stack[..|stack|] == stack;
    return Success(nameToSrv);
  }

  /** One declaration of a layer: a failure ends the whole resolution, a success stores the definition. */
  lemma LayerTdStep(t: Templates, c: Config, params: map<string, string>, seen: seq<TdEntry>, j: nat, m: map<string, TaskDefinition>)
    requires j < |c.taskDefinitions|
    requires ResolveTds(t, seen + TdEntriesOf(c)[..j], params) == Success(m)
    ensures var e := TdEntry(c.dir, c.taskDefinitions[j]); var td := ResolveTd(t, e, params);
      && (td.Failure? ==> ResolveTds(t, seen + TdEntriesOf(c), params) == Failure(td.error))
      && (td.Success? ==> ResolveTds(t, seen + TdEntriesOf(c)[..j + 1], params) == Success(m[e.decl.name := td.value]))
  {
    var e := TdEntry(c.dir, c.taskDefinitions[j]);
    ResolveTdsSnoc(t, seen + TdEntriesOf(c)[..j], e, params);
    SnocSlice(seen, TdEntriesOf(c), j);
    if ResolveTd(t, e, params).Failure? {
      PrefixFailureTds(t, seen + TdEntriesOf(c)[..j + 1], seen + TdEntriesOf(c), params);
    }
  }

  lemma LayerServiceStep(t: Templates, c: Config, params: map<string, string>, seen: seq<ServiceEntry>, j: nat, m: map<string, Service>)
    requires j < |c.services|
    requires ResolveServices(t, seen + ServiceEntriesOf(c)[..j], params) == Success(m)
    ensures var e := ServiceEntry(c.dir, c.services[j]); var srv := ResolveService(t, e, params);
      && (srv.Failure? ==> ResolveServices(t, seen + ServiceEntriesOf(c), params) == Failure(srv.error))
      && (srv.Success? ==> ResolveServices(t, seen + ServiceEntriesOf(c)[..j + 1], params) == Success(m[e.decl.name := srv.value]))
  {
    var e := ServiceEntry(c.dir, c.services[j]);
    ResolveServicesSnoc(t, seen + ServiceEntriesOf(c)[..j], e, params);
    SnocSlice(seen, ServiceEntriesOf(c), j);
    if ResolveService(t, e, params).Failure? {
      PrefixFailureServices(t, seen + ServiceEntriesOf(c)[..j + 1], seen + ServiceEntriesOf(c), params);
    }
  }

  lemma SnocSlice<T>(pre: seq<T>, s: seq<T>, j: nat)
    requires j < |s|
    ensures pre + s[..j + 1] == (pre + s[..j]) + [s[j]]
  {
    assert s[..j + 1] == s[..j] + [s[j]];
  }

  lemma ResolveTdsSnoc(t: Templates, es: seq<TdEntry>, e: TdEntry, params: map<string, string>)
    ensures ResolveTds(t, es + [e], params) ==
      if ResolveTds(t, es, params).Failure? then ResolveTds(t, es, params)
      else Store(ResolveTds(t, es, params).value, e.decl.name, ResolveTd(t, e, params))
  {
    assert (es + [e])[..|es|] == es;
  }

  lemma ResolveServicesSnoc(t: Templates, es: seq<ServiceEntry>, e: ServiceEntry, params: map<string, string>)
    ensures ResolveServices(t, es + [e], params) ==
      if ResolveServices(t, es, params).Failure? then ResolveServices(t, es, params)
      else Store(ResolveServices(t, es, params).value, e.decl.name, ResolveService(t, e, params))
  {
    assert (es + [e])[..|es|] == es;
  }

  /** NewAppWithConfigStack: parameters first, then task definitions, then services. */
  method NewAppWithConfigStack(t: Templates, stack: seq<Config>) returns (r: Result<App, ResolveError>)
    ensures r == Resolved(t, stack)
  {
    var params := FlattenParams(stack);
    var tds := ResolveTaskDefinitions(t, stack, params);
    if tds.Failure? {
      return Failure(tds.error);
    }
    var srvs := ResolveServiceDefinitions(t, stack, params);
    if srvs.Failure? {
      return Failure(srvs.error);
    }
    return Success(App(tds.value, srvs.value));
  }

  /** The declarations of a prefix of the stack come first. */
  lemma {:induction false} TdEntriesPrefix(stack: seq<Config>, n: nat)
    requires n <= |stack|
    ensures TdEntries(stack[..n]) <= TdEntries(stack)
    decreases |stack|
  {
    if n < |stack| {
      TdEntriesPrefix(stack[..|stack| - 1], n);
      assert stack[..|stack| - 1][..n] == stack[..n];
    } else {
      assert stack[..n] == stack;
    }
  }

  lemma {:induction false} ServiceEntriesPrefix(stack: seq<Config>, n: nat)
    requires n <= |stack|
    ensures ServiceEntries(stack[..n]) <= ServiceEntries(stack)
    decreases |stack|
  {
    if n < |stack| {
      ServiceEntriesPrefix(stack[..|stack| - 1], n);
      assert stack[..|stack| - 1][..n] == stack[..n];
    } else {
      assert stack[..n] == stack;
    }
  }

  /** A failure on a prefix of the declarations is the failure of the whole resolution. */
  lemma {:induction false} PrefixFailureTds(t: Templates, pre: seq<TdEntry>, es: seq<TdEntry>, params: map<string, string>)
    requires ResolveTds(t, pre, params).Failure?
    requires pre <= es
    ensures ResolveTds(t, es, params) == ResolveTds(t, pre, params)
    decreases |es|
  {
    if |es| > |pre| {
      assert pre <= es[..|es| - 1];
      PrefixFailureTds(t, pre, es[..|es| - 1], params);
    } else {
      assert es == pre;
    }
  }

  lemma {:induction false} PrefixFailureServices(t: Templates, pre: seq<ServiceEntry>, es: seq<ServiceEntry>, params: map<string, string>)
    requires ResolveServices(t, pre, params).Failure?
    requires pre <= es
    ensures ResolveServices(t, es, params) == ResolveServices(t, pre, params)
    decreases |es|
  {
    if |es| > |pre| {
      assert pre <= es[..|es| - 1];
      PrefixFailureServices(t, pre, es[..|es| - 1], params);
    } else {
      assert es == pre;
    }
  }

  // ---------------------------------------------------------------------------
  // What the resolved maps hold

  /** Storing resolved values in order: the first failure wins, otherwise a later name replaces an earlier one. */
  function Collect<V>(rs: seq<(string, Result<V, ResolveError>)>): Result<map<string, V>, ResolveError> {
    if rs == [] then Success(map[])
    else
      var init := Collect(rs[..|rs| - 1]);
      if init.Failure? then init else Store(init.value, rs[|rs| - 1].0, rs[|rs| - 1].1)
  }

  function TdResults(t: Templates, es: seq<TdEntry>, params: map<string, string>): (rs: seq<(string, Result<TaskDefinition, ResolveError>)>)
    ensures |rs| == |es|
    ensures forall i :: 0 <= i < |es| ==> rs[i] == (es[i].decl.name, ResolveTd(t, es[i], params))
  {
    seq(|es|, i requires 0 <= i < |es| => (es[i].decl.name, ResolveTd(t, es[i], params)))
  }

  function ServiceResults(t: Templates, es: seq<ServiceEntry>, params: map<string, string>): (rs: seq<(string, Result<Service, ResolveError>)>)
    ensures |rs| == |es|
    ensures forall i :: 0 <= i < |es| ==> rs[i] == (es[i].decl.name, ResolveService(t, es[i], params))
  {
    seq(|es|, i requires 0 <= i < |es| => (es[i].decl.name, ResolveService(t, es[i], params)))
  }

  lemma {:induction false} TdsCollect(t: Templates, es: seq<TdEntry>, params: map<string, string>)
    ensures ResolveTds(t, es, params) == Collect(TdResults(t, es, params))
    decreases |es|
  {
    if es != [] {
      TdsCollect(t, es[..|es| - 1], params);
      assert TdResults(t, es, params)[..|es| - 1] == TdResults(t, es[..|es| - 1], params);
    }
  }

  lemma {:induction false} ServicesCollect(t: Templates, es: seq<ServiceEntry>, params: map<string, string>)
    ensures ResolveServices(t, es, params) == Collect(ServiceResults(t, es, params))
    decreases |es|
  {
    if es != [] {
      ServicesCollect(t, es[..|es| - 1], params);
      assert ServiceResults(t, es, params)[..|es| - 1] == ServiceResults(t, es[..|es| - 1], params);
    }
  }

  /** Resolution fails exactly when some declaration fails, and with the first failure's error. */
  lemma {:induction false} CollectFails<V>(rs: seq<(string, Result<V, ResolveError>)>)
    ensures Collect(rs).Failure? <==> exists i :: 0 <= i < |rs| && rs[i].1.Failure?
    ensures Collect(rs).Failure? ==> exists i :: (0 <= i < |rs| && rs[i].1.Failure? && Collect(rs).error == rs[i].1.error
      && forall j :: 0 <= j < i ==> rs[j].1.Success?)
    decreases |rs|
  {
    if rs != [] {
      var init := rs[..|rs| - 1];
      CollectFails(init);
      if exists i :: 0 <= i < |init| && init[i].1.Failure? {
        var i :| 0 <= i < |init| && init[i].1.Failure?;
        assert rs[i] == init[i];
      }
      if Collect(init).Failure? {
        var i :| 0 <= i < |init| && init[i].1.Failure? && Collect(init).error == init[i].1.error
          && forall j :: 0 <= j < i ==> init[j].1.Success?;
        assert rs[i] == init[i];
        assert forall j :: 0 <= j < i ==> rs[j] == init[j];
      } else {
        assert forall j :: 0 <= j < |init| ==> rs[j] == init[j];
      }
    }
  }

  /** On success, the names stored are exactly the names declared. */
  lemma {:induction false} CollectKeys<V>(rs: seq<(string, Result<V, ResolveError>)>)
    requires Collect(rs).Success?
    ensures Collect(rs).value.Keys == set i | 0 <= i < |rs| :: rs[i].0
    decreases |rs|
  {
    if rs != [] {
      var init := rs[..|rs| - 1];
      CollectKeys(init);
      var names := set i | 0 <= i < |rs| :: rs[i].0;
      var initNames := set i | 0 <= i < |init| :: init[i].0;
      assert names == initNames + {rs[|rs| - 1].0} by {
        forall n | n in names ensures n in initNames + {rs[|rs| - 1].0} {
          var i :| 0 <= i < |rs| && rs[i].0 == n;
          if i < |init| {
            assert init[i].0 == n;
          }
        }
        forall n | n in initNames ensures n in names {
          var i :| 0 <= i < |init| && init[i].0 == n;
          assert rs[i].0 == n;
        }
      }
    }
  }

  /** On success, a name holds the value of its last declaration: later declarations replace earlier ones wholesale. */
  lemma {:induction false} CollectLastWins<V>(rs: seq<(string, Result<V, ResolveError>)>, k: nat)
    requires Collect(rs).Success?
    requires k < |rs|
    requires forall j :: k < j < |rs| ==> rs[j].0 != rs[k].0
    ensures rs[k].1.Success?
    ensures rs[k].0 in Collect(rs).value && Collect(rs).value[rs[k].0] == rs[k].1.value
    decreases |rs|
  {
    var init := rs[..|rs| - 1];
    if k < |init| {
      assert forall j :: k < j < |init| ==> init[j] == rs[j];
      CollectLastWins(init, k);
    }
  }

  function TaskDefinitionsNum(app: App): nat {
    |app.nameToTd|
  }

  function ServicesNum(app: App): nat {
    |app.nameToSrv|
  }

  /** The logical names the stack declares. */
  function DeclaredTdNames(stack: seq<Config>): set<string> {
    set e | e in TdEntries(stack) :: e.decl.name
  }

  function DeclaredServiceNames(stack: seq<Config>): set<string> {
    set e | e in ServiceEntries(stack) :: e.decl.name
  }

  /**
    A resolved application holds one task definition and one service per
    declared logical name, so the counts are the numbers of distinct names.
   */
  lemma ResolvedNames(t: Templates, stack: seq<Config>)
    requires Resolved(t, stack).Success?
    ensures Resolved(t, stack).value.nameToTd.Keys == DeclaredTdNames(stack)
    ensures Resolved(t, stack).value.nameToSrv.Keys == DeclaredServiceNames(stack)
    ensures TaskDefinitionsNum(Resolved(t, stack).value) == |DeclaredTdNames(stack)|
    ensures ServicesNum(Resolved(t, stack).value) == |DeclaredServiceNames(stack)|
  {
    var params := Flatten(stack);
    var tes, ses := TdEntries(stack), ServiceEntries(stack);
    ResolvedTdNames(t, tes, params);
    ResolvedServiceNames(t, ses, params);
  }

  lemma ResolvedTdNames(t: Templates, es: seq<TdEntry>, params: map<string, string>)
    requires ResolveTds(t, es, params).Success?
    ensures ResolveTds(t, es, params).value.Keys == set e | e in es :: e.decl.name
  {
    TdsCollect(t, es, params);
    var rs := TdResults(t, es, params);
    CollectKeys(rs);
    var declared := set e | e in es :: e.decl.name;
    var names := set i | 0 <= i < |rs| :: rs[i].0;
    forall n | n in declared
      ensures n in names
    {
      var e :| e in es && e.decl.name == n;
      var i :| 0 <= i < |es| && es[i] == e;
      assert rs[i].0 == n;
    }
  }

  lemma ResolvedServiceNames(t: Templates, es: seq<ServiceEntry>, params: map<string, string>)
    requires ResolveServices(t, es, params).Success?
    ensures ResolveServices(t, es, params).value.Keys == set e | e in es :: e.decl.name
  {
    ServicesCollect(t, es, params);
    var rs := ServiceResults(t, es, params);
    CollectKeys(rs);
    var declared := set e | e in es :: e.decl.name;
    var names := set i | 0 <= i < |rs| :: rs[i].0;
    forall n | n in declared
      ensures n in names
    {
      var e :| e in es && e.decl.name == n;
      var i :| 0 <= i < |es| && es[i] == e;
      assert rs[i].0 == n;
    }
  }

  /** The task definition stored under a name is the one resolved from its last declaration. */
  lemma ResolvedTdLastWins(t: Templates, stack: seq<Config>, k: nat)
    requires Resolved(t, stack).Success?
    requires k < |TdEntries(stack)|
    requires forall j :: k < j < |TdEntries(stack)| ==> TdEntries(stack)[j].decl.name != TdEntries(stack)[k].decl.name
    ensures ResolveTd(t, TdEntries(stack)[k], Flatten(stack)).Success?
    ensures TdEntries(stack)[k].decl.name in Resolved(t, stack).value.nameToTd
    ensures Resolved(t, stack).value.nameToTd[TdEntries(stack)[k].decl.name]
         == ResolveTd(t, TdEntries(stack)[k], Flatten(stack)).value
  {
    var es, params := TdEntries(stack), Flatten(stack);
    TdsCollect(t, es, params);
    CollectLastWins(TdResults(t, es, params), k);
  }

  /** The service stored under a name is the one rendered from its last declaration. */
  lemma ResolvedServiceLastWins(t: Templates, stack: seq<Config>, k: nat)
    requires Resolved(t, stack).Success?
    requires k < |ServiceEntries(stack)|
    requires forall j :: k < j < |ServiceEntries(stack)| ==> ServiceEntries(stack)[j].decl.name != ServiceEntries(stack)[k].decl.name
    ensures ResolveService(t, ServiceEntries(stack)[k], Flatten(stack)).Success?
    ensures ServiceEntries(stack)[k].decl.name in Resolved(t, stack).value.nameToSrv
    ensures Resolved(t, stack).value.nameToSrv[ServiceEntries(stack)[k].decl.name]
         == ResolveService(t, ServiceEntries(stack)[k], Flatten(stack)).value
  {
    var es, params := ServiceEntries(stack), Flatten(stack);
    ServicesCollect(t, es, params);
    CollectLastWins(ServiceResults(t, es, params), k);
  }

  /** Some task-definition declaration of the stack fails to render or decode. */
  ghost predicate SomeTdFails(t: Templates, stack: seq<Config>) {
    exists i :: 0 <= i < |TdEntries(stack)| && ResolveTd(t, TdEntries(stack)[i], Flatten(stack)).Failure?
  }

  ghost predicate SomeServiceFails(t: Templates, stack: seq<Config>) {
    exists i :: 0 <= i < |ServiceEntries(stack)| && ResolveService(t, ServiceEntries(stack)[i], Flatten(stack)).Failure?
  }

  /** Resolution succeeds exactly when every declaration renders and decodes. */
  lemma ResolvedFails(t: Templates, stack: seq<Config>)
    ensures Resolved(t, stack).Failure? <==> SomeTdFails(t, stack) || SomeServiceFails(t, stack)
  {
    var tes, ses, params := TdEntries(stack), ServiceEntries(stack), Flatten(stack);
    assert Resolved(t, stack).Failure? <==> ResolveTds(t, tes, params).Failure? || ResolveServices(t, ses, params).Failure?;
    TdsCollect(t, tes, params);
    ServicesCollect(t, ses, params);
    var trs, srs := TdResults(t, tes, params), ServiceResults(t, ses, params);
    CollectFails(trs);
    CollectFails(srs);
    assert ResolveTds(t, tes, params).Failure? <==> SomeTdFails(t, stack) by {
      if SomeTdFails(t, stack) {
        var i :| 0 <= i < |tes| && ResolveTd(t, tes[i], params).Failure?;
        assert trs[i].1.Failure?;
      }
    }
    assert ResolveServices(t, ses, params).Failure? <==> SomeServiceFails(t, stack) by {
      if SomeServiceFails(t, stack) {
        var i :| 0 <= i < |ses| && ResolveService(t, ses[i], params).Failure?;
        assert srs[i].1.Failure?;
      }
    }
  }

  /**
    A declaration with both files: a top-level field the file's document
    mentions comes from the file, one only the base document mentions comes
    from the base, and any other keeps its zero value.
   */
  lemma BaseThenFile(t: Templates, e: TdEntry, params: map<string, string>, f: TdField)
    requires |e.decl.baseFile| > 0 && |e.decl.file| > 0
    requires ResolveTd(t, e, params).Success?
    ensures var base := t.renderTaskDefinition(t.fs.absJoin(e.dir, e.decl.baseFile).value, params).value;
      var over := t.renderTaskDefinition(t.fs.absJoin(e.dir, e.decl.file).value, params).value;
      f != ContainerDefinitionsField ==>
        Get(ResolveTd(t, e, params).value, f) ==
          if f in over.present then Get(over.value, f)
          else if f in base.present then Get(base.value, f)
          else Get(EmptyTaskDefinition, f)
  {
    var base := t.renderTaskDefinition(t.fs.absJoin(e.dir, e.decl.baseFile).value, params).value;
    var over := t.renderTaskDefinition(t.fs.absJoin(e.dir, e.decl.file).value, params).value;
    DecodeIntoField(EmptyTaskDefinition, base, f);
    DecodeIntoField(DecodeInto(EmptyTaskDefinition, base), over, f);
  }

  /**
    A declaration with both files: there are as many containers as the file's
    array holds (the base's when the file has none), and a field of container i
    comes from the file's container i when that mentions it, else from the
    base's container i when that exists and mentions it, else is zero.
   */
  lemma BaseThenFileContainer(t: Templates, e: TdEntry, params: map<string, string>, i: nat, f: CdField)
    requires |e.decl.baseFile| > 0 && |e.decl.file| > 0
    requires ResolveTd(t, e, params).Success?
    ensures var base := t.renderTaskDefinition(t.fs.absJoin(e.dir, e.decl.baseFile).value, params).value;
      var over := t.renderTaskDefinition(t.fs.absJoin(e.dir, e.decl.file).value, params).value;
      var cds := ResolveTd(t, e, params).value.containerDefinitions;
      var n := if ContainerDefinitionsField in over.present then |over.containers|
               else if ContainerDefinitionsField in base.present then |base.containers| else 0;
      && |cds| == n
      && (i < n ==>
            GetCd(cds[i], f) ==
              if ContainerDefinitionsField in over.present && f in over.containers[i].present then GetCd(over.containers[i].value, f)
              else if ContainerDefinitionsField in base.present && i < |base.containers| && f in base.containers[i].present
              then GetCd(base.containers[i].value, f)
              else GetCd(EmptyContainerDefinition, f))
  {
    var base := t.renderTaskDefinition(t.fs.absJoin(e.dir, e.decl.baseFile).value, params).value;
    var over := t.renderTaskDefinition(t.fs.absJoin(e.dir, e.decl.file).value, params).value;
    assert ResolveTd(t, e, params).value == DecodeInto(DecodeInto(EmptyTaskDefinition, base), over);
    DecodedContainer(base, over, i, f);
  }

  /** The container merge of BaseThenFileContainer, over the two parsed documents. */
  lemma DecodedContainer(base: TdDoc, over: TdDoc, i: nat, f: CdField)
    ensures var cds := DecodeInto(DecodeInto(EmptyTaskDefinition, base), over).containerDefinitions;
      var n := if ContainerDefinitionsField in over.present then |over.containers|
               else if ContainerDefinitionsField in base.present then |base.containers| else 0;
      && |cds| == n
      && (i < n ==>
            GetCd(cds[i], f) ==
              if ContainerDefinitionsField in over.present && f in over.containers[i].present then GetCd(over.containers[i].value, f)
              else if ContainerDefinitionsField in base.present && i < |base.containers| && f in base.containers[i].present
              then GetCd(base.containers[i].value, f)
              else GetCd(EmptyContainerDefinition, f))
  {
    var first := DecodeInto(EmptyTaskDefinition, base);
    DecodeIntoField(EmptyTaskDefinition, base, ContainerDefinitionsField);
    DecodeIntoField(first, over, ContainerDefinitionsField);
    var cds := DecodeInto(first, over).containerDefinitions;
    if i < |cds| {
      if ContainerDefinitionsField in base.present && i < |base.containers| {
        DecodeContainerField(EmptyContainerDefinition, base.containers[i], f);
        if ContainerDefinitionsField in over.present {
          DecodeContainerField(first.containerDefinitions[i], over.containers[i], f);
        }
      } else if ContainerDefinitionsField in over.present {
        DecodeContainerField(EmptyContainerDefinition, over.containers[i], f);
      }
    }
  }

}
