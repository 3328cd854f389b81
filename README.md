# esbuild-plugin-ajv, modelled in Dafny

esbuild-plugin-ajv is an esbuild plugin. Application code imports a JSON Schema file with the
marker `ajv:` in front of its path, and the plugin compiles that schema into a standalone ajv
validator at bundle time. This project models the parts of the repository whose behaviour can
be stated without the bundler, the file system or ajv:

- `wrappers.dfy` (`Wrappers`): `Option` and `Result`. `Result.Err` stands for a thrown error or a
  rejected promise.
- `cache.dfy` (`BuildCache`): the build cache of `src/cache.ts`. `Call` is one
  `getOrCompute(key, input)` on a map of entries. `Replay` is a run of sequential calls.
  `Cache` is the closure's state: the `Map`, the callback and a ghost log of callback runs.
  `Cache.GetOrCompute` updates the map in place.
- `specifier.dfy` (`Specifier`): the resolve hook's filter `/^ajv:.+\.json$/i` (`Intercepted`)
  and the strip `replace(/^ajv:/i, "")` (`Strip`).
- `merge.dfy` (`MergeDeep`): option values as a tree (`Opt`), ramda's `mergeDeepLeft` (`Merge`,
  `MergeDeepLeft`) and the fixed baseline `{code: {source: true, optimize: 1}}`.
- `posix_path.dfy` (`PosixPath`): Node's POSIX `path.dirname`, which the load hook uses for
  `resolveDir`.
- `plugin.dfy` (`AjvPlugin`): option defaults (`MakePlugin`), the engine options
  (`EngineOptions`), `setup` as a method (`Setup`), and the resolve and load hooks together with
  their filters (`Resolve`, `Load`). `Setup` works on an engine object (`Engine`) and a build
  context (`Build`), which share one ghost log (`Log`) of the changes made to them.

The cache callback, `build.resolve`, and the load hook's read-parse-compile-format step are
function parameters. The callback and the compile step may fail.

Facts about the code that the model keeps:

- The option merge is deep, and the baseline (the left argument of `mergeDeepLeft`) wins every
  conflicting leaf.
- The baseline fixes only `code.source` and `code.optimize`. It has no `esm`, `lines` or
  `loadSchema` entry.
- No synthetic `$id` is assigned to a schema.
- Only the prefix marker `ajv:` is recognised. `Specifier.SuffixMarkerNotIntercepted` shows
  that the specifier `./testSchema.json?ajv`, which the test fixture imports, does not pass the
  filter.
- `src/plugin.ts` never calls `createBuildCache`. The cache is modelled as the standalone
  component that `src/cache.ts` exports.

## Model

| member | source | states |
|---|---|---|
| `BuildCache.Call` | src/cache.ts:5-13 | the callback runs exactly when the key is absent or its stored input differs (`!==`). A hit returns the stored output and changes nothing. A miss returns the callback's result. After a success the slot is `{input, output}` with the returned output. A throwing callback leaves the map as it was. The key set gains `key` only. No other slot changes |
| `BuildCache.CallTransparent` | src/cache.ts:6-12 | from a map whose every entry is what the callback gives for that entry's key and input, a call returns exactly `buildCallback(key, input)` and keeps that property |
| `BuildCache.SecondCallHits` | src/cache.ts:7-12 | idempotence: right after a successful call, the same `(key, input)` is a hit. It returns the same output, runs no callback and leaves the map unchanged |
| `BuildCache.Replay` | src/cache.ts:4-13 | over any sequence of calls: one result per call, at most one callback run per call, each run is one of the calls, keys are never removed, and keys never called keep their entries |
| `BuildCache.ReplayTransparent` | src/cache.ts:4-13 | memoisation changes no answer: every call in a sequence returns what the callback would return for it |
| `BuildCache.RepeatedCallRunsCallbackOnce` | src/cache.ts:7-9 | repeating one successful `(key, input)` call n times runs the callback at most once, and not at all if it was already cached |
| `BuildCache.Cache.constructor` | src/cache.ts:1-4 | a new cache has an empty map and no callback run yet |
| `BuildCache.Cache.GetOrCompute` | src/cache.ts:5-13 | updates the map in place as `Call` does. It returns `buildCallback(key, input)`. It appends `(key, input)` to the log exactly on a miss. It keeps every old key and every other key's entry |
| `Specifier.Strip` | src/plugin.ts:43 | the result is a suffix of the specifier. It is 4 characters shorter exactly when the specifier starts with `ajv:` in any ASCII case, and unchanged otherwise |
| `Specifier.Intercepted` | src/plugin.ts:39 | the filter accepts a specifier iff it splits as `ajv:` (any ASCII case), then one or more characters that are not line terminators, then `.json` (any ASCII case), from start to end. The body checks positions; the contract states the equivalence with this concatenation reading |
| `Specifier.StripIntercepted` | src/plugin.ts:39-43 | for an intercepted specifier, the strip removes exactly the first 4 characters and keeps the rest. The rest has length at least 6, ends in `.json` (any case), and has a valid `.+` part |
| `Specifier.StripWithoutMarker` | src/plugin.ts:43 | a specifier that does not start with `ajv:` passes through the strip unchanged |
| `Specifier.MarkerCaseInsensitive` | src/plugin.ts:39-43 | `AJV:schemas/User.JSON` is intercepted and strips to `schemas/User.JSON` |
| `Specifier.SuffixMarkerNotIntercepted` | src/__fixtures__/test-entrypoint.js:1 | the fixture's `./testSchema.json?ajv` is not intercepted by the prefix filter |
| `Specifier.LineBreakNotIntercepted` | src/plugin.ts:39 | `.` does not match a line break, so `ajv:a\nb.json` is not intercepted |
| `MergeDeep.Merge` | src/plugin.ts:24-32 | the merge of two objects is an object with the union of their keys. A key on one side only keeps that side's value. Unless both sides are plain objects, the left value is kept whole |
| `MergeDeep.MergeDeepLeft` | src/plugin.ts:24-32 | the merged options have exactly the keys of both arguments |
| `MergeDeep.LeftLeafWins` | src/plugin.ts:24-32 | every leaf of the left argument, at any depth, is in the merge unchanged, whatever the right argument holds |
| `MergeDeep.RightSurvivesWhereLeftIsAbsent` | src/plugin.ts:24-32 | every value of the right argument at a path that leaves the left argument through a missing key is in the merge unchanged, at any depth |
| `MergeDeep.BaselineWins` | src/plugin.ts:24-32 | for any caller options, the merged options have `code.source == true` and `code.optimize == 1` |
| `MergeDeep.CallerValuesSurvive` | src/plugin.ts:24-32 | every caller value is kept unchanged except `code.source`, `code.optimize` and the `code` object itself. This covers every other top-level key and every sibling key inside a caller `code` object |
| `MergeDeep.NonObjectCodeReplaced` | src/plugin.ts:24-32 | a caller `code` that is not a plain object is replaced whole by the baseline's `code` |
| `MergeDeep.DefaultIsBaseline` | src/plugin.ts:19-32 | merging the baseline with `{}` gives the baseline exactly |
| `PosixPath.DirName` | src/plugin.ts:56 | `path.dirname` is non-empty. It is `.` or a prefix of the path. It is absolute exactly when the path is |
| `PosixPath.DirNameOfChild` | src/plugin.ts:56 | the directory of `dir/name` is `dir`, for every `dir` not ending in `/` and every non-empty `name` without `/` |
| `PosixPath.DirNameKeepsRepeatedSeps` | src/plugin.ts:56 | with `k >= 1` separators between a directory `dir` (not ending in `/`) and a last name, the directory is `dir` followed by `k - 1` separators |
| `PosixPath.DirNameAtRoot` | src/plugin.ts:56 | the directory of `/name` is `/` |
| `PosixPath.DirNameOfBareName` | src/plugin.ts:56 | a path without `/` (the empty one included) has directory `.` |
| `PosixPath.TrailingSepIgnored` | src/plugin.ts:56 | a trailing `/` does not change the directory of a non-empty path |
| `PosixPath.RepeatedSepKept` | src/plugin.ts:56 | Node's cut keeps doubled separators: `/a//b` gives `/a/`, and `//a` gives `//` |
| `AjvPlugin.MakePlugin` | src/plugin.ts:17-21 | the plugin is named `ajv-plugin`. An omitted `extraKeywords` is `[]` and an omitted `ajvOptions` is `{}`. Supplied values are kept as given |
| `AjvPlugin.EngineOptions` | src/plugin.ts:23-33 | the engine options have the baseline's keys plus the caller's, with `code.source == true` and `code.optimize == 1` |
| `AjvPlugin.DefaultPlugin` | src/plugin.ts:17-33 | with every option omitted there are no extra keywords, and the engine options are exactly the baseline |
| `AjvPlugin.Engine.constructor` | src/plugin.ts:23-33 | a new engine holds the given options, no added keyword, and the given log |
| `AjvPlugin.Engine.AddKeyword` | src/plugin.ts:35 | `addKeyword` appends the definition to the engine's keywords and records the addition in the shared log |
| `AjvPlugin.Build.OnResolve` | src/plugin.ts:38-39 | registering the resolve hook appends it, with its filter, to the build's hooks and records the registration in the shared log |
| `AjvPlugin.Build.OnLoad` | src/plugin.ts:49-50 | registering the load hook appends it, with its namespace and filter, to the build's hooks and records the registration in the shared log |
| `AjvPlugin.Setup` | src/plugin.ts:22-60 | the engine is fresh and built with the merged options. It ends with exactly `extraKeywords`, in order and once each. The build gains exactly the resolve hook and then the load hook. The engine shares the build's log, and the log gains every keyword addition, in order, before the two hook registrations |
| `AjvPlugin.Resolve` | src/plugin.ts:38-48 | the hook answers iff the filter accepts the specifier. The answer is in namespace `ajv-validator`, and its path is the bundler's resolution of the specifier without its first 4 characters |
| `AjvPlugin.Load` | src/plugin.ts:49-58 | the hook answers iff the namespace is `ajv-validator`. It fails iff the compile step fails. Otherwise the answer is the compiled code with `loader == "js"` and `resolveDir == dirname(path)` |
| `AjvPlugin.InterceptedIsLoaded` | src/plugin.ts:45-50 | every intercepted specifier is resolved into the namespace, and the load hook accepts what it resolves to |
| `AjvPlugin.OtherNamespaceNotLoaded` | src/plugin.ts:50 | paths in any other namespace never reach the load hook |
| `AjvPlugin.ResolvedSchemaLoadsFromItsDirectory` | src/plugin.ts:38-57 | if the bundler resolves an intercepted `ajv:<rest>` to `dir/name`, then the module loads as `js` with `resolveDir == dir` |

## Left out

- Concurrency: calls of the cache's closure are sequential. An interleaving of two `await`s on the same key (last write wins) is not modelled.
- The callback's promise is not modelled. A resolved promise is `Ok`. A rejection or a throw is `Err` and propagates before `cache.set`.
- I/O and foreign libraries: `fs.readFile`, `JSON.parse`, `ajv.compile`, `standaloneCode` and prettier's `format` are one parameter of `Load`, the compile step, from the engine and a path to code or an error. Their output cannot be specified from this repository.
- `build.resolve` is an opaque function from the stripped path and `resolveDir` to a path. When resolution fails, `build.resolve` does not throw: it reports the failure in `errors` and returns an empty `path`. The hook reads only `.path`, so it discards those errors and answers `{path: "", namespace: "ajv-validator"}`; the model covers this only in that the resolver may return the empty path. The nested running of resolve hooks inside `build.resolve` belongs to the bundler.
- Hook dispatch is not modelled: esbuild's choice of which registered hook to run, and the bundling itself. `Resolve` and `Load` each pair a hook's callback with its own filter.
- esbuild evaluates filters with Go's regular-expression engine. There `.` excludes only `\n`, and case folding is Unicode-wide (so `ſ` matches `s`). The model reads the filter as the ECMAScript literal the code writes. There `.` excludes the four line terminators, and only ASCII case variants match the letters of `ajv:` and `.json`.
- `Engine`: ajv's own option handling and built-in keywords are not modelled. Neither are the checks `addKeyword` makes, which throw on a duplicate or invalid keyword. A keyword definition is opaque apart from its name.
- `AjvPlugin.Setup`: the hooks' closures capture the engine by reference. The model passes the engine's options and keywords to `Load` as a value.
- `PosixPath.DirName` follows Node's POSIX `path.dirname`. The Windows variant is not modelled.
- Option values are trees of plain objects and leaves. Numbers are integers. Arrays, functions and other non-plain values are opaque leaves, as ramda treats them. Class instances are also leaves in the model, although ramda's `_isObject` test (`[object Object]`) accepts them and merges into them.
- Not modelled: the generated validator code and its runtime behaviour (coercion, error lists), the test file's snapshot, the test helpers, and the build and test configuration files.
