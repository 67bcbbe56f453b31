/**
  The configuration stack (config.go). A configuration file may name a `base`
  file; the loader follows these links from the file it is given and returns
  the layers root first, the given file last.

  The file system is a map from path to what reading and YAML-decoding that
  path gives; `filepath.Dir` and `filepath.Abs(filepath.Join(..))` are
  functions of the FileSystem value.
 */
module Config {
  import opened Wrappers

  datatype ConfigTaskDef = ConfigTaskDef(name: string, baseFile: string, file: string)
  datatype ConfigService = ConfigService(name: string, file: string, taskDefinition: string)

  /** One layer. `dir` is not read from YAML: the loader sets it to the directory of the file. */
  datatype Config = Config(
    region: string,
    cluster: string,
    params: map<string, string>,
    taskDefinitions: seq<ConfigTaskDef>,
    services: seq<ConfigService>,
    base: string,
    dir: string)

  /** What a path holds: a decoded layer, or text YAML cannot decode. Absent paths cannot be opened. */
  datatype FileEntry = Parsed(layer: Config) | Unparsable(message: string)

  datatype FileSystem = FileSystem(
    files: map<string, FileEntry>,
    dirOf: string -> string,
    absJoin: (string, string) -> Result<string, string>)

  datatype ConfigError =
    | OpenFailed(path: string)
    | ParseFailed(path: string, message: string)
    | AbsFailed(message: string)
    /** The `base` chain is longer than the fuel bound; the source itself loops on a cycle. */
    | ChainTooLong(path: string)

  /** os.Open followed by parseConfig, and `dir` set to the file's directory (config.go:42-53). */
  function ReadLayer(fs: FileSystem, path: string): (r: Result<Config, ConfigError>)
    ensures r.Success? <==> path in fs.files && fs.files[path].Parsed?
    ensures r.Success? ==> r.value == fs.files[path].layer.(dir := fs.dirOf(path))
  {
    if path !in fs.files then Failure(OpenFailed(path))
    else match fs.files[path]
      case Unparsable(m) => Failure(ParseFailed(path, m))
      case Parsed(c) => Success(c.(dir := fs.dirOf(path)))
  }

  /** The path a layer's `base` names, resolved against the layer's own directory (config.go:59). */
  function BasePath(fs: FileSystem, c: Config): Result<string, string> {
    fs.absJoin(c.dir, c.base)
  }

  /** Appends `tail` to a successful stack. */
  function Then(r: Result<seq<Config>, ConfigError>, tail: seq<Config>): Result<seq<Config>, ConfigError> {
    match r
    case Success(cs) => Success(cs + tail)
    case Failure(e) => Failure(e)
  }

  lemma ThenNil(r: Result<seq<Config>, ConfigError>)
    ensures Then(r, []) == r
  {
    if r.Success? {
      assert r.value + [] == r.value;
    }
  }

  lemma ThenThen(r: Result<seq<Config>, ConfigError>, a: seq<Config>, b: seq<Config>)
    ensures Then(Then(r, a), b) == Then(r, a + b)
  {
    if r.Success? {
      assert r.value + a + b == r.value + (a + b);
    }
  }

  /** The stack the chain starting at `path` denotes, root first, reading at most `fuel` files. */
  function Chain(fs: FileSystem, path: string, fuel: nat): Result<seq<Config>, ConfigError>
    decreases fuel
  {
    if fuel == 0 then Failure(ChainTooLong(path))
    else match ReadLayer(fs, path)
      case Failure(e) => Failure(e)
      case Success(c) =>
        if |c.base| == 0 then Success([c])
        else match BasePath(fs, c)
          case Failure(m) => Failure(AbsFailed(m))
          case Success(p) => Then(Chain(fs, p, fuel - 1), [c])
  }

  /** loadConfigStack: follows the `base` links, prepending each layer it reads. */
  method LoadConfigStack(fs: FileSystem, path: string, fuel: nat) returns (r: Result<seq<Config>, ConfigError>)
    ensures r == Chain(fs, path, fuel)
  {
    var tmpPath := path;
    var cs: seq<Config> := [];
    var steps := 0;
    ThenNil(Chain(fs, path, fuel));
    while steps < fuel
      invariant steps <= fuel
      invariant Chain(fs, path, fuel) == Then(Chain(fs, tmpPath, fuel - steps), cs)
      decreases fuel - steps
    {
      var read := ReadLayer(fs, tmpPath);
      if read.Failure? {
        return Failure(read.error);
      }
      var c := read.value;
      var below := cs;
      cs := [c] + cs;
      if |c.base| > 0 {
        var p := BasePath(fs, c);
        if p.Failure? {
          return Failure(AbsFailed(p.error));
        }
        ThenThen(Chain(fs, p.value, fuel - steps - 1), [c], below);
        tmpPath := p.value;
      } else {
        return Success(cs);
      }
      steps := steps + 1;
    }
    return Failure(ChainTooLong(tmpPath));
  }

  /**
    `cs` is the chain that starts at `path`: the last layer is the file at
    `path`, each layer's non-empty `base` resolves to the path of the layer
    before it, and only the first (root) layer has an empty `base`.
   */
  ghost predicate IsChain(fs: FileSystem, path: string, cs: seq<Config>) {
    && |cs| > 0
    && ReadLayer(fs, path) == Success(cs[|cs| - 1])
    && cs[0].base == ""
    && (forall i :: 0 < i < |cs| ==> cs[i].base != "")
    && (forall i :: 0 <= i < |cs| - 1 ==> Links(fs, cs[i], cs[i + 1]))
  }

  /** `upper`'s `base` resolves to a path that reads as `lower`. */
  ghost predicate Links(fs: FileSystem, lower: Config, upper: Config) {
    BasePath(fs, upper).Success? && ReadLayer(fs, BasePath(fs, upper).value) == Success(lower)
  }

  /** Whatever the loader returns is the chain starting at `path`, no longer than the fuel. */
  lemma {:induction false} ChainIsChain(fs: FileSystem, path: string, fuel: nat)
    requires Chain(fs, path, fuel).Success?
    ensures IsChain(fs, path, Chain(fs, path, fuel).value)
    ensures |Chain(fs, path, fuel).value| <= fuel
    decreases fuel
  {
    var c := ReadLayer(fs, path).value;
    if |c.base| > 0 {
      var p := BasePath(fs, c).value;
      ChainIsChain(fs, p, fuel - 1);
      var rest := Chain(fs, p, fuel - 1).value;
      var cs := rest + [c];
      assert Chain(fs, path, fuel).value == cs;
      forall i | 0 <= i < |cs| - 1
        ensures Links(fs, cs[i], cs[i + 1])
      {
        if i < |cs| - 2 {
          assert cs[i] == rest[i] && cs[i + 1] == rest[i + 1];
        }
      }
    }
  }

  /** Conversely, a chain that fits in the fuel is exactly what the loader returns. */
  lemma {:induction false} IsChainIsLoaded(fs: FileSystem, path: string, cs: seq<Config>, fuel: nat)
    requires IsChain(fs, path, cs)
    requires |cs| <= fuel
    ensures Chain(fs, path, fuel) == Success(cs)
    decreases |cs|
  {
    var c := cs[|cs| - 1];
    if |cs| > 1 {
      assert Links(fs, cs[|cs| - 2], cs[|cs| - 2 + 1]);
      var p := BasePath(fs, c).value;
      var rest := cs[..|cs| - 1];
      assert IsChain(fs, p, rest) by {
        forall i | 0 < i < |rest| ensures rest[i].base != "" {
          assert rest[i] == cs[i];
        }
        forall i | 0 <= i < |rest| - 1
          ensures Links(fs, rest[i], rest[i + 1])
        {
          assert rest[i] == cs[i] && rest[i + 1] == cs[i + 1];
        }
      }
      IsChainIsLoaded(fs, p, rest, fuel - 1);
      assert rest + [c] == cs;
      assert c.base != "";
    } else {
      assert c.base == "" && cs == [c];
    }
  }

  /** A file that cannot be opened or decoded anywhere in the chain gives an error and no stack. */
  lemma {:induction false} BrokenLinkFails(fs: FileSystem, path: string, fuel: nat, bad: seq<string>)
    requires |bad| > 0 && bad[0] == path
    requires forall i :: 0 <= i < |bad| - 1 ==>
      ReadLayer(fs, bad[i]).Success? && ReadLayer(fs, bad[i]).value.base != ""
      && BasePath(fs, ReadLayer(fs, bad[i]).value) == Success(bad[i + 1])
    requires ReadLayer(fs, bad[|bad| - 1]).Failure?
    ensures Chain(fs, path, fuel).Failure?
    decreases fuel
  {
    if fuel > 0 && |bad| > 1 {
      BrokenLinkFails(fs, bad[1], fuel - 1, bad[1..]);
    }
  }

  /** A file whose `base` resolves to itself: no amount of fuel gives a stack. */
  lemma {:induction false} SelfBaseNeverEnds(fs: FileSystem, path: string, fuel: nat)
    requires ReadLayer(fs, path).Success? && ReadLayer(fs, path).value.base != ""
    requires BasePath(fs, ReadLayer(fs, path).value) == Success(path)
    ensures Chain(fs, path, fuel) == Failure(ChainTooLong(path))
    decreases fuel
  {
    if fuel > 0 {
      SelfBaseNeverEnds(fs, path, fuel - 1);
    }
  }

  /** An overlay whose base is a root file yields exactly two layers, root first. */
  lemma TwoFileChain(fs: FileSystem, overlay: string, root: string, fuel: nat)
    requires fuel >= 2
    requires ReadLayer(fs, overlay).Success? && ReadLayer(fs, overlay).value.base != ""
    requires BasePath(fs, ReadLayer(fs, overlay).value) == Success(root)
    requires ReadLayer(fs, root).Success? && ReadLayer(fs, root).value.base == ""
    ensures Chain(fs, overlay, fuel) == Success([ReadLayer(fs, root).value, ReadLayer(fs, overlay).value])
  {
    var r, o := ReadLayer(fs, root).value, ReadLayer(fs, overlay).value;
    assert Chain(fs, root, fuel - 1) == Success([r]);
    assert Chain(fs, overlay, fuel) == Then(Chain(fs, root, fuel - 1), [o]);
    assert [r] + [o] == [r, o];
  }
}
