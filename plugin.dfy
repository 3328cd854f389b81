/**
 * The plugin of src/plugin.ts: `AjvPlugin(options)` fills in the defaults,
 * and its `setup(build)` builds the validator engine from the merged
 * options, registers every extra keyword with it, then registers one resolve
 * hook and one load hook with the bundler.
 *
 * The bundler's own resolution (`build.resolve`) and everything the load
 * hook does to turn a file into code (reading it, `JSON.parse`, compiling,
 * generating standalone code, formatting) are function parameters.
 */
module AjvPlugin {
  import opened Wrappers
  import opened MergeDeep
  import Specifier
  import PosixPath

  const PluginName: string := "ajv-plugin"
  /** The namespace resolved schema paths are tagged with. */
  const Namespace: string := "ajv-validator"
  const JsLoader: string := "js"
  const ResolveFilter: string := "^ajv:.+\\.json$"
  const LoadFilter: string := ".*"

  /** A custom keyword definition; only its identity matters here. */
  datatype KeywordDef = KeywordDef(keyword: string, definition: Opt)

  /** The options object of `AjvPlugin`; `None` is an omitted (undefined) field. */
  datatype Options = Options(extraKeywords: Option<seq<KeywordDef>>, ajvOptions: Option<Fields>)

  /** The plugin value, with the defaults filled in. */
  datatype Plugin = Plugin(name: string, extraKeywords: seq<KeywordDef>, ajvOptions: Fields)

  /** `AjvPlugin(options)`: an omitted field takes its default, `[]` or `{}`. */
  function MakePlugin(o: Options): (p: Plugin)
    ensures p.name == PluginName
    ensures o.extraKeywords.Some? ==> p.extraKeywords == o.extraKeywords.value
    ensures o.extraKeywords.None? ==> p.extraKeywords == []
    ensures o.ajvOptions.Some? ==> p.ajvOptions == o.ajvOptions.value
    ensures o.ajvOptions.None? ==> p.ajvOptions == map[]
  {
    Plugin(PluginName,
           if o.extraKeywords.Some? then o.extraKeywords.value else [],
           if o.ajvOptions.Some? then o.ajvOptions.value else map[])
  }

  /** The options the engine is built with: the baseline merged over the caller's. */
  function EngineOptions(p: Plugin): (m: Fields)
    ensures m.Keys == Baseline.Keys + p.ajvOptions.Keys
    ensures "code" in m && m["code"].Obj?
    ensures "source" in m["code"].fields && m["code"].fields["source"] == Leaf(Bool(true))
    ensures "optimize" in m["code"].fields && m["code"].fields["optimize"] == Leaf(Num(1))
  {
    BaselineWins(p.ajvOptions);
    MergeDeepLeft(Baseline, p.ajvOptions)
  }

  /** With every option omitted, the engine gets exactly the baseline and no extra keyword. */
  lemma DefaultPlugin()
    ensures MakePlugin(Options(None, None)).extraKeywords == []
    ensures EngineOptions(MakePlugin(Options(None, None))) == Baseline
  {
  }

  /** What the load hook needs of the engine: its options and its keywords. */
  datatype EngineConfig = EngineConfig(options: Fields, keywords: seq<KeywordDef>)

  /** A change `setup` makes to the engine or to the build, in the order it makes them. */
  datatype SetupEvent = KeywordAdded(def: KeywordDef) | HookRegistered(hook: Hook)

  /**
   * The record of every change made to the engine and the build: both hold
   * the same log, and each of their mutating methods appends its own event.
   */
  class Log {
    ghost var events: seq<SetupEvent>

    constructor ()
      ensures events == []
    {
      events := [];
    }
  }

  /** The validator engine `new Ajv(options)`, reduced to what the plugin changes. */
  class Engine {
    const options: Fields
    var keywords: seq<KeywordDef>
    const log: Log

    constructor (options: Fields, log: Log)
      ensures this.options == options && keywords == [] && this.log == log
    {
      this.options := options;
      keywords := [];
      this.log := log;
    }

    /** `ajv.addKeyword(def)`. */
    method AddKeyword(def: KeywordDef)
      modifies this, log
      ensures keywords == old(keywords) + [def]
      ensures log.events == old(log.events) + [KeywordAdded(def)]
    {
      keywords := keywords + [def];
      log.events := log.events + [KeywordAdded(def)];
    }
  }

  /** A hook registration: its filter and, for the load hook, its namespace. */
  datatype Hook = OnResolve(filter: string) | OnLoad(namespace: string, filter: string)

  /** The bundler's build context, reduced to the hooks registered on it. */
  class Build {
    var hooks: seq<Hook>
    const log: Log

    constructor (log: Log)
      ensures hooks == [] && this.log == log
    {
      hooks := [];
      this.log := log;
    }

    /** `build.onResolve({filter}, ...)`. */
    method OnResolve(filter: string)
      modifies this, log
      ensures hooks == old(hooks) + [Hook.OnResolve(filter)]
      ensures log.events == old(log.events) + [HookRegistered(Hook.OnResolve(filter))]
    {
      hooks := hooks + [Hook.OnResolve(filter)];
      log.events := log.events + [HookRegistered(Hook.OnResolve(filter))];
    }

    /** `build.onLoad({namespace, filter}, ...)`. */
    method OnLoad(namespace: string, filter: string)
      modifies this, log
      ensures hooks == old(hooks) + [Hook.OnLoad(namespace, filter)]
      ensures log.events == old(log.events) + [HookRegistered(Hook.OnLoad(namespace, filter))]
    {
      hooks := hooks + [Hook.OnLoad(namespace, filter)];
      log.events := log.events + [HookRegistered(Hook.OnLoad(namespace, filter))];
    }
  }

  function KeywordEvents(defs: seq<KeywordDef>): (es: seq<SetupEvent>)
    ensures |es| == |defs|
    ensures forall i :: 0 <= i < |defs| ==> es[i] == KeywordAdded(defs[i])
  {
    seq(|defs|, i requires 0 <= i < |defs| => KeywordAdded(defs[i]))
  }

  /**
   * `setup(build)`: the engine is created from the merged options, every
   * extra keyword is added to it in order, once each, and only then are the
   * two hooks registered. The engine shares the build's log, so the log
   * orders the engine's changes against the build's.
   */
  method Setup(p: Plugin, build: Build) returns (engine: Engine)
    modifies build, build.log
    ensures fresh(engine) && engine.log == build.log
    ensures engine.options == EngineOptions(p)
    ensures engine.keywords == p.extraKeywords
    ensures build.hooks == old(build.hooks) + [Hook.OnResolve(ResolveFilter), Hook.OnLoad(Namespace, LoadFilter)]
    ensures build.log.events == old(build.log.events) + KeywordEvents(p.extraKeywords)
              + [HookRegistered(Hook.OnResolve(ResolveFilter)), HookRegistered(Hook.OnLoad(Namespace, LoadFilter))]
  {
    engine := new Engine(EngineOptions(p), build.log);
    for i := 0 to |p.extraKeywords|
      invariant engine.keywords == p.extraKeywords[..i]
      invariant build.log.events == old(build.log.events) + KeywordEvents(p.extraKeywords[..i])
      invariant build.hooks == old(build.hooks)
    {
      engine.AddKeyword(p.extraKeywords[i]);
    }
    build.OnResolve(ResolveFilter);
    build.OnLoad(Namespace, LoadFilter);
  }

  /** The arguments esbuild passes to a resolve hook. */
  datatype ResolveArgs = ResolveArgs(path: string, resolveDir: string)
  datatype ResolveResult = ResolveResult(path: string, namespace: string)

  /** `(await build.resolve(path, {resolveDir})).path`: the bundler's own resolution. */
  type Resolver = (string, string) -> string

  /**
   * The resolve hook with its filter: `None` when the filter does not match
   * (the hook is not run); otherwise the marker is stripped, the rest is
   * resolved by the bundler and tagged with the namespace.
   */
  function Resolve(args: ResolveArgs, resolve: Resolver): (r: Option<ResolveResult>)
    ensures r.Some? <==> Specifier.Intercepted(args.path)
    ensures r.Some? ==> r.value.namespace == Namespace
    ensures r.Some? ==> r.value.path == resolve(args.path[|Specifier.Prefix|..], args.resolveDir)
  {
    if Specifier.Intercepted(args.path) then
      Specifier.StripIntercepted(args.path);
      Some(ResolveResult(resolve(Specifier.Strip(args.path), args.resolveDir), Namespace))
    else None
  }

  /** The arguments esbuild passes to a load hook. */
  datatype LoadArgs = LoadArgs(path: string, namespace: string)
  datatype LoadResult = LoadResult(contents: string, loader: string, resolveDir: string)

  /**
   * Reading the file, `JSON.parse`, `ajv.compile`, `standaloneCode` and
   * formatting, as one step from the engine and a file path to code; `Err`
   * is any of them throwing.
   */
  type Compiler = (EngineConfig, string) -> Result<string>

  /**
   * The load hook with its filter: `None` outside the namespace; otherwise
   * the compiled code as a `js` module whose resolve directory is the
   * schema's directory, or the error that aborts the load.
   */
  function Load(engine: EngineConfig, args: LoadArgs, compile: Compiler): (r: Option<Result<LoadResult>>)
    ensures r.Some? <==> args.namespace == Namespace
    ensures r.Some? ==> (r.value.Err? <==> compile(engine, args.path).Err?)
    ensures r.Some? && r.value.Ok? ==>
              && r.value.value.contents == compile(engine, args.path).value
              && r.value.value.loader == JsLoader
              && r.value.value.resolveDir == PosixPath.DirName(args.path)
  {
    if args.namespace != Namespace then None
    else match compile(engine, args.path)
      case Err(e) => Some(Err(e))
      case Ok(code) => Some(Ok(LoadResult(code, JsLoader, PosixPath.DirName(args.path))))
  }

  /**
   * Routing: every intercepted specifier is resolved into the namespace, and
   * the load hook takes the resolved path whatever it is.
   */
  lemma InterceptedIsLoaded(args: ResolveArgs, resolve: Resolver, engine: EngineConfig, compile: Compiler)
    requires Specifier.Intercepted(args.path)
    ensures Resolve(args, resolve).Some?
    ensures var rr := Resolve(args, resolve).value;
            Load(engine, LoadArgs(rr.path, rr.namespace), compile).Some?
  {
  }

  /** Paths in any other namespace never reach the load hook. */
  lemma OtherNamespaceNotLoaded(engine: EngineConfig, path: string, namespace: string, compile: Compiler)
    requires namespace != Namespace
    ensures Load(engine, LoadArgs(path, namespace), compile).None?
  {
  }

  /**
   * End to end: a specifier `ajv:<rest>` that the bundler resolves to
   * `dir/name` loads as a `js` module resolving relative imports from `dir`,
   * the bundler being asked for `<rest>` with the marker gone.
   */
  lemma ResolvedSchemaLoadsFromItsDirectory(args: ResolveArgs, resolve: Resolver, engine: EngineConfig,
                                            compile: Compiler, dir: string, name: string)
    requires Specifier.Intercepted(args.path)
    requires |dir| > 0 && dir[|dir| - 1] != PosixPath.Sep
    requires |name| > 0 && PosixPath.Sep !in name
    requires resolve(args.path[|Specifier.Prefix|..], args.resolveDir) == dir + [PosixPath.Sep] + name
    requires compile(engine, dir + [PosixPath.Sep] + name).Ok?
    ensures var rr := Resolve(args, resolve).value;
            var lr := Load(engine, LoadArgs(rr.path, rr.namespace), compile).value.value;
            lr.loader == JsLoader && lr.resolveDir == dir
  {
    PosixPath.DirNameOfChild(dir, name);
  }
}
