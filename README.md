# A verified model of the tg.rm asset-bundle manager

tg.rm is a Unity asset-bundle manager in two halves. The build side
(`AssetBundleEditor`) assigns every asset to a bundle named after its folder,
walks the asset dependency graph, and writes a binary dependency map. The
runtime side (`RM`, `ABUnit`, `Promise`) reads that map back, finds the
bundle of a requested asset and the bundles it depends on, loads each
bundle at most once, and serves assets from a cache.

This project models that core in Dafny and proves what it promises:

- `utility.dfy` (module `Utility`): the 32-bit string hashes, the
  asset-path to bundle-path and asset-path to asset-name conversions, and the
  linear `IsContains` scan.
- `models.dfy` (module `BundleModel`): `ABUnitModel` and `AssetUnitModel`,
  with the duplicate-free asset list.
- `depmap.dfy` (module `DependencyMap`): the dependency-map file as a
  sequence of integer and string tokens, the encoder, the reader of
  `ParseDependenciesMap` as functions, and the round trip between them.
- `promise.dfy` (module `Promises`): the single-threaded promise. All promises
  live in one `PromiseWorld` object. A user callback is an abstract id and
  each call is recorded in a trace. `Resolve` is a work-list loop proved equal
  to the recursive cascade `Run`.
- `loader.dfy` (module `LoaderSpec`): the runtime manager's state as a value.
  Every operation of `RM.cs` is a function on it. The invariant `Valid` says
  among other things that no bundle load is ever requested twice.
- `runtime.dfy` (module `Runtime`): the class `RM`, whose methods update the
  state in place. Each is proved equal to its `LoaderSpec` function.
- `editor.dfy` (module `BundleEditor`): the build side's `abDic` in the class
  `Editor`, the legality filter, the recursive dependency walk,
  `SetABNameByAssetPath` and `GenerateAllABDependencies`.
- `writer.dfy` (module `MapWriter`): `WriteABInfo2ByteFile`, proved to emit
  the encoding of a file value. The lemmas say which files are written, what
  they hold, and what the runtime reads back from them.

The Unity engine is a parameter, never called:

- `AssetDatabase.GetDependencies` is an asset database value `AssetDb`.
- `AssetImporter.GetAtPath` is the `importers` part of that value.
- `File.Exists` is a boolean argument.
- The two asynchronous engine loads are requests that the manager records.
  Their completion is an event the environment delivers later:
  `BundleArrived`, `AssetArrived` and `DepsSettled`.

Each ABUnit and each promise is an index into an arena. Two references to
the same object are the same index. `Dictionary` and `HashSet` enumerate in
insertion order here, because nothing is ever removed from them, so each is
a key sequence beside a map.

## Model

| member | source | states |
|---|---|---|
| Utility.CustomStringHash | Assets/Plugins/tg.rm/Runtime/Utility.cs:45-56 | the loop's accumulator ends as the hash function `Hash` of the whole string |
| Utility.CustomStringHashIgnoreCase | Assets/Plugins/tg.rm/Runtime/Utility.cs:71-87 | the case-folding loop returns the plain hash of the ASCII-lowered string |
| Utility.ShiftAddIsMultiply | Assets/Plugins/tg.rm/Runtime/Utility.cs:52 | the five-shift update equals multiplication by 16777619 modulo 2^32 |
| Utility.HashStepIsFnvStep | Assets/Plugins/tg.rm/Runtime/Utility.cs:51-52 | one round is an FNV-1a round: XOR with the character, then multiply by the FNV prime modulo 2^32 |
| Utility.EmptyHashIsZero | Assets/Plugins/tg.rm/Runtime/Utility.cs:47-55 | the empty string hashes to 0 under both hashes (offset basis 0) |
| Utility.IgnoreCaseHashAgrees | Assets/Plugins/tg.rm/Runtime/Utility.cs:71-87 | strings that differ only in ASCII letter case have the same ignore-case hash |
| Utility.LowerIsIdempotent | Assets/Plugins/tg.rm/Runtime/Utility.cs:78-81 | lowering twice is lowering once, and a lowered string has no capital letter |
| Utility.LowerAscii | Assets/Plugins/tg.rm/Runtime/Utility.cs:78-81 | 'A'..'Z' move up by 32, every other character is kept, and no result is a capital letter |
| Utility.ToLowerAscii | Assets/Plugins/tg.rm/Runtime/Utility.cs:104 | lowering keeps the length and lowers each character in place |
| Utility.LastIndexOf | Assets/Plugins/tg.rm/Runtime/Utility.cs:105 | the result is -1 or a position of the character, and no later position holds it |
| Utility.IndexOf | Assets/Plugins/tg.rm/Runtime/Utility.cs:117 | the result is -1 or a position of the character, and no earlier position holds it |
| Utility.RemoveKeepsChars | Assets/Plugins/tg.rm/Runtime/Utility.cs:106 | removing every occurrence of a pattern leaves only characters of the input |
| Utility.SlashSurvivesLowering | Assets/Plugins/tg.rm/Runtime/Utility.cs:104-105 | a path with a '/' still has one after lowering, so the directory cut is defined |
| Utility.ABPathIsLowerWithSuffix | Assets/Plugins/tg.rm/Runtime/Utility.cs:102-107 | a bundle path has no capital letter and ends with ".ab" |
| Utility.SameDirectorySameBundle | Assets/Plugins/tg.rm/Runtime/Utility.cs:104-106 | two paths whose lowered text up to the last '/' agrees get the same bundle path |
| Utility.ABPathIsNeverAssets | Assets/Plugins/tg.rm/Runtime/Utility.cs:102-107 | no bundle path equals the word "assets", which the dependency scan skips |
| Utility.ConvertAssetPath2AssetName | Assets/Plugins/tg.rm/Runtime/Utility.cs:115-118 | the asset name holds no '.' and is a prefix of the path with every "Assets/" removed |
| Utility.IsContains | Assets/Plugins/tg.rm/Runtime/Utility.cs:228-238 | the scan answers true exactly when some element of the list matches under the comparison |
| BundleModel.NewAssetUnitModel | Assets/Plugins/tg.rm/Runtime/RM.cs:89-95 | an entry keeps both paths; its name is the dot-free asset name, hashed ignoring case |
| BundleModel.ABUnitModel.AddDependenciesIndex | Assets/Plugins/tg.rm/Runtime/RM.cs:42-47 | the index list grows by exactly the new index at its end; nothing else changes |
| BundleModel.ABUnitModel.AddAsset | Assets/Plugins/tg.rm/Runtime/RM.cs:49-60 | an empty path changes nothing; afterwards the pair is listed; a listed pair changes nothing; at most one entry is appended and it is the new entry; a list without repeated pairs keeps none |
| BundleModel.NewABUnitModel | Assets/Plugins/tg.rm/Runtime/RM.cs:34-40 | a new bundle has no variant, no indices and exactly the one entry for its asset |
| BundleModel.AddAssetIdempotent | Assets/Plugins/tg.rm/Runtime/RM.cs:49-60 | adding the same asset twice is adding it once |
| DependencyMap.ToInt32 | Assets/Plugins/tg.rm/Runtime/RM.cs:535 | the signed reading of a 32-bit hash pattern has that pattern, and is non-negative exactly below 2^31 |
| DependencyMap.ToInt32OfWrap | Assets/Plugins/tg.rm/Runtime/RM.cs:535 | a signed value written as its bit pattern reads back unchanged |
| DependencyMap.ReadInts | Assets/Plugins/tg.rm/Runtime/RM.cs:522-526 | a complete read yields as many integers as the count asks for (none for a negative count) and consumes input |
| DependencyMap.ParsedModel | Assets/Plugins/tg.rm/Runtime/RM.cs:519-527 | the model read for an entry is `new ABUnitModel("", abPath)` with the indices in file order |
| DependencyMap.ReadBundles | Assets/Plugins/tg.rm/Runtime/RM.cs:517-528 | a complete read yields one model per entry the count announces |
| DependencyMap.Parse | Assets/Plugins/tg.rm/Runtime/RM.cs:505-541 | reading only appends models and only adds hashes to what the runtime already held |
| DependencyMap.ReadAssetsKeepsKeys | Assets/Plugins/tg.rm/Runtime/RM.cs:537-540 | a hash already in the table keeps its index whatever the asset part holds |
| DependencyMap.ModelsOf | Assets/Plugins/tg.rm/Runtime/RM.cs:517-528 | the models expected from a file: one per bundle record, in order, with its path and indices |
| DependencyMap.FirstWinsMeaning | Assets/Plugins/tg.rm/Runtime/RM.cs:533-541 | the table holds exactly the old hashes and the hashes of the entries; old hashes keep their index; a new hash gets the index of its first entry |
| DependencyMap.ReadEncodedInts | Assets/Plugins/tg.rm/Runtime/RM.cs:522-526 | reading the encoding of n integers with count n gives them back and leaves the rest |
| DependencyMap.ReadEncodedBundles | Assets/Plugins/tg.rm/Runtime/RM.cs:517-528 | reading encoded bundle records gives their models back and leaves the rest |
| DependencyMap.ReadEncodedAssets | Assets/Plugins/tg.rm/Runtime/RM.cs:530-541 | reading encoded asset records gives the first-wins table and leaves the rest |
| DependencyMap.RoundTrip | Assets/Plugins/tg.rm/Runtime/RM.cs:505-541 | reading an encoded file from empty tables reads all of it, gives one model per bundle record and the first-wins asset table |
| DependencyMap.ParseWhole | Assets/Plugins/tg.rm/Runtime/RM.cs:507-541 | a stream whose bundle part reads completely is parsed as that part followed by the asset table |
| Promises.AddRec | Assets/Plugins/tg.rm/Runtime/Promise_NonGeneric.cs:72-75 | a new promise is appended in the given state with a null value and no handler; nothing else changes |
| Promises.AddHandler | Assets/Plugins/tg.rm/Runtime/Promise_NonGeneric.cs:80-91 | registering appends the handler to that promise's list and changes no other promise |
| Promises.SettleStep | Assets/Plugins/tg.rm/Runtime/Promise_NonGeneric.cs:124-139 | whatever the state, the promise becomes Resolved with the value and no handlers, and its handlers are queued in registration order |
| Promises.JoinValue | Assets/Plugins/tg.rm/Runtime/Promise_NonGeneric.cs:323 | All's value is an array of the inputs' current values, in input order |
| Promises.Step | Assets/Plugins/tg.rm/Runtime/Promise_NonGeneric.cs:108-139 | one task keeps the world well formed and lowers the cascade's weight, so every cascade ends |
| Promises.Run | Assets/Plugins/tg.rm/Runtime/Promise_NonGeneric.cs:108-139 | a cascade keeps the world well formed and only adds promises |
| Promises.RunAppend | Assets/Plugins/tg.rm/Runtime/Promise_NonGeneric.cs:112-115 | running two task lists in turn is running their concatenation |
| Promises.RunMonotone | Assets/Plugins/tg.rm/Runtime/Promise_NonGeneric.cs:124-139 | a cascade never un-resolves a promise and only appends to the trace |
| Promises.RunSingleSettle | Assets/Plugins/tg.rm/Runtime/Promise_NonGeneric.cs:124-139 | resolving a promise with no handler only stores Resolved and the value |
| Promises.RunPlainOne | Assets/Plugins/tg.rm/Runtime/Promise_NonGeneric.cs:248-261 | a `Then` handler runs its callback with the value, then resolves its result promise with it |
| Promises.PlainEffectMeaning | Assets/Plugins/tg.rm/Runtime/Promise_NonGeneric.cs:112-115 | plain handlers run in order: the trace gains their calls and their result promises resolve with the value |
| Promises.ResolveRunsHandlersInOrder | Assets/Plugins/tg.rm/Runtime/Promise_NonGeneric.cs:108-139 | `Resolve(v)` stores Resolved and v, empties the list, calls every callback once in registration order with v, resolves every result promise with v, and changes nothing else |
| Promises.ResolveIsPlainEffect | Assets/Plugins/tg.rm/Runtime/Promise_NonGeneric.cs:108-139 | resolving is the promise's update followed by the combined effect of its handlers |
| Promises.ThenOn | Assets/Plugins/tg.rm/Runtime/Promise_NonGeneric.cs:225-272 | on a settled promise the same promise is returned, and the callback is called at once with the stored value and nothing else changes; a null callback calls nothing and marks the promise Rejected; on a pending promise a fresh Pending promise is returned, a handler for it appended to the promise, which keeps its state and value, and nothing else changes |
| Promises.ThenOnWellFormed | Assets/Plugins/tg.rm/Runtime/Promise_NonGeneric.cs:225-272 | `Then` keeps every promise and handler id valid |
| Promises.ThenThenResolve | Assets/Plugins/tg.rm/Runtime/Promise_NonGeneric.cs:243-270 | `Then(cb)` on a pending promise, then `Resolve(v)`: cb runs once with v after the earlier callbacks, and the returned promise ends Resolved with v |
| Promises.ThenKeepsPlain | Assets/Plugins/tg.rm/Runtime/Promise_NonGeneric.cs:243-270 | `Then` on a pending promise with plain handlers leaves only plain handlers |
| Promises.ContinueOn | Assets/Plugins/tg.rm/Runtime/Promise_NonGeneric.cs:145-220 | on a settled promise fn is called at once with the stored value and the promise it returns comes back, or a fresh Resolved promise when it returns null; a null fn calls nothing, marks the promise Rejected and returns a fresh Resolved promise; on a pending promise a fresh Pending promise is returned, a handler for it appended to the promise, which keeps its state and value, and nothing else changes |
| Promises.ContinueOnWellFormed | Assets/Plugins/tg.rm/Runtime/Promise_NonGeneric.cs:145-220 | `ContinueWith` keeps every promise and handler id valid |
| Promises.ContinueWithThenResolve | Assets/Plugins/tg.rm/Runtime/Promise_NonGeneric.cs:177-218 | on a pending promise with no other handler, `ContinueWith(fn)` then `Resolve(v)`: fn runs once with v; a null return resolves the result with null; a settled returned promise passes on its value; a pending one is chained |
| Promises.ContinueNullCase | Assets/Plugins/tg.rm/Runtime/Promise_NonGeneric.cs:187-197 | when fn returns null, `Promise.Resolved()` stands in and the result resolves with null |
| Promises.ContinueSettledCase | Assets/Plugins/tg.rm/Runtime/Promise_NonGeneric.cs:186-199 | when fn returns a settled promise, the result resolves with that promise's value |
| Promises.ContinuePendingCase | Assets/Plugins/tg.rm/Runtime/Promise_NonGeneric.cs:186-199 | when fn returns a pending promise, the result stays Pending and is chained to it |
| Promises.ChainedPromiseResolves | Assets/Plugins/tg.rm/Runtime/Promise_NonGeneric.cs:199 | when the promise fn returned later resolves with u, the ContinueWith result resolves with u |
| Promises.RunTwoSettles | Assets/Plugins/tg.rm/Runtime/Promise_NonGeneric.cs:260 | resolving two promises without handlers stores both values and nothing else |
| Promises.CountDownNow | Assets/Plugins/tg.rm/Runtime/Promise_NonGeneric.cs:317-325 | the countdown run at once on a settled input keeps the world well formed |
| Promises.AllStep | Assets/Plugins/tg.rm/Runtime/Promise_NonGeneric.cs:309-325 | one turn of All's loop keeps the world well formed and the join count |
| Promises.AllOf | Assets/Plugins/tg.rm/Runtime/Promise_NonGeneric.cs:296-329 | All returns a fresh promise; with no input it is Resolved with null |
| Promises.AllOfSettledInputs | Assets/Plugins/tg.rm/Runtime/Promise_NonGeneric.cs:303-328 | when every input is settled or null, All's result is Resolved at once with the inputs' values in input order, null for a null input |
| Promises.AllOfPendingInput | Assets/Plugins/tg.rm/Runtime/Promise_NonGeneric.cs:317-325 | while one input is pending, All's result stays Pending and its counter is still positive |
| Promises.PromiseWorld.NewPromise | Assets/Plugins/tg.rm/Runtime/Promise_NonGeneric.cs:50-53 | a fresh Pending promise with a null value and no handler is added |
| Promises.PromiseWorld.ResolvedPromise | Assets/Plugins/tg.rm/Runtime/Promise_NonGeneric.cs:331-334 | a fresh promise Resolved with a null value is added |
| Promises.PromiseWorld.Resolve | Assets/Plugins/tg.rm/Runtime/Promise_NonGeneric.cs:124-139 | the work-list loop leaves the world that the cascade `Run` of `Settle(p, v)` gives, and keeps it well formed |
| Promises.PromiseWorld.StepOne | Assets/Plugins/tg.rm/Runtime/Promise_NonGeneric.cs:108-119 | one task updates the world as `Step` says and lowers the weight |
| Promises.PromiseWorld.SettleOne | Assets/Plugins/tg.rm/Runtime/Promise_NonGeneric.cs:96-103 | storing state and value and detaching the handlers is `SettleStep` |
| Promises.PromiseWorld.FireOne | Assets/Plugins/tg.rm/Runtime/Promise_NonGeneric.cs:248-265 | running one detached handler is `FireStep` |
| Promises.PromiseWorld.ContinueOne | Assets/Plugins/tg.rm/Runtime/Promise_NonGeneric.cs:182-209 | the ContinueWith handler is `ContinueStep` |
| Promises.PromiseWorld.Then | Assets/Plugins/tg.rm/Runtime/Promise_NonGeneric.cs:225-272 | the new state and the returned promise are those of `ThenOn` |
| Promises.PromiseWorld.ContinueWith | Assets/Plugins/tg.rm/Runtime/Promise_NonGeneric.cs:145-220 | the new state and the returned promise are those of `ContinueOn` |
| Promises.PromiseWorld.All | Assets/Plugins/tg.rm/Runtime/Promise_NonGeneric.cs:296-329 | the loop leaves the state and result of `AllOf` |
| Promises.PromiseWorld.AllTurn | Assets/Plugins/tg.rm/Runtime/Promise_NonGeneric.cs:309-325 | one loop turn is `AllStep` |
| LoaderSpec.ModelByIndex | Assets/Plugins/tg.rm/Runtime/RM.cs:621-648 | a model exactly for an index in range; none past the end; a negative index throws |
| LoaderSpec.ModelOf | Assets/Plugins/tg.rm/Runtime/RM.cs:650-671 | a model exactly when the hash is known and its index in range, and it is the model at that index; a negative index throws |
| LoaderSpec.CollectDepsMeaning | Assets/Plugins/tg.rm/Runtime/RM.cs:564-574 | the loop throws exactly when some index is negative; otherwise it yields exactly the models at the in-range indices |
| LoaderSpec.AllDependenciesMeaning | Assets/Plugins/tg.rm/Runtime/RM.cs:550-588 | nothing for an unknown path; otherwise the main model first, then the in-range dependency models; a negative index throws |
| LoaderSpec.NewUnit | Assets/Plugins/tg.rm/Runtime/RM.cs:155-158 | a new unit has the bundle path, state None, no promise and no chain |
| LoaderSpec.GetUnit | Assets/Plugins/tg.rm/Runtime/RM.cs:678-686 | a known path yields its unit and changes nothing; an unknown one registers a new unit at the end; the registry only grows |
| LoaderSpec.AddLoadedAsset | Assets/Plugins/tg.rm/Runtime/RM.cs:707-717 | the cache's keys gain exactly the path |
| LoaderSpec.CachedAsset | Assets/Plugins/tg.rm/Runtime/RM.cs:697-700 | an asset is found exactly when the path is cached |
| LoaderSpec.AddThenGet | Assets/Plugins/tg.rm/Runtime/RM.cs:697-717 | after insert-or-replace the path yields the new asset and every other path what it yielded before |
| LoaderSpec.FileNameWithoutExtension | Assets/Plugins/tg.rm/Runtime/RM.cs:426 | the file name holds no '/' |
| LoaderSpec.AssetNameOf | Assets/Plugins/tg.rm/Runtime/RM.cs:426 | the name asked of the bundle is lower case |
| LoaderSpec.Extract | Assets/Plugins/tg.rm/Runtime/RM.cs:424-458 | extraction only appends the asset load it starts (none for a Scene, an empty name or a missing bundle) |
| LoaderSpec.ExtractAllMeaning | Assets/Plugins/tg.rm/Runtime/RM.cs:276-288 | running the waiting handlers appends exactly their asset loads, in registration order |
| LoaderSpec.Then | Assets/Plugins/tg.rm/Runtime/RM.cs:347-368 | waiting on LoadABPro changes no unit's state, model or dependencies |
| LoaderSpec.LoadAsync | Assets/Plugins/tg.rm/Runtime/RM.cs:597-612 | a load, including the early return on an empty path, keeps the tables and the registry's consistency |
| LoaderSpec.LoadDep | Assets/Plugins/tg.rm/Runtime/RM.cs:232-265 | one turn of the dependency loop keeps the arena's size |
| LoaderSpec.InitialValid | Assets/Plugins/tg.rm/Runtime/RM.cs:466-483 | a fresh manager satisfies the invariant |
| LoaderSpec.GetUnitValid | Assets/Plugins/tg.rm/Runtime/RM.cs:678-686 | registering a new unit keeps the invariant |
| LoaderSpec.StartValid | Assets/Plugins/tg.rm/Runtime/RM.cs:182-206 | starting a load from None keeps the invariant; its bundle had not been requested |
| LoaderSpec.ExtractValid | Assets/Plugins/tg.rm/Runtime/RM.cs:424-458 | starting asset loads keeps the invariant |
| LoaderSpec.InternalLoadAssetValid | Assets/Plugins/tg.rm/Runtime/RM.cs:341-374 | InternalLoadAssetAsync keeps the invariant |
| LoaderSpec.LoadAssetAsyncValid | Assets/Plugins/tg.rm/Runtime/RM.cs:163-174 | ABUnit.LoadAssetAsync keeps the invariant |
| LoaderSpec.LoadAsyncValid | Assets/Plugins/tg.rm/Runtime/RM.cs:597-612 | LoadAsync keeps the invariant, so no bundle is requested twice |
| LoaderSpec.FillValid | Assets/Plugins/tg.rm/Runtime/RM.cs:303-327 | listing the dependencies keeps the invariant |
| LoaderSpec.LoadDepValid | Assets/Plugins/tg.rm/Runtime/RM.cs:232-265 | one turn of the dependency loop keeps the invariant, and waits for the dependency unless it has settled |
| LoaderSpec.LoadDepsFromValid | Assets/Plugins/tg.rm/Runtime/RM.cs:229-269 | the dependency loop keeps the invariant |
| LoaderSpec.MainContinueValid | Assets/Plugins/tg.rm/Runtime/RM.cs:187-205 | the end of the main chain keeps the invariant |
| LoaderSpec.BundleArrivedValid | Assets/Plugins/tg.rm/Runtime/RM.cs:212-222 | the arrival of a bundle keeps the invariant |
| LoaderSpec.DepsSettledValid | Assets/Plugins/tg.rm/Runtime/RM.cs:193-197 | the completion of the dependencies' Promise.All keeps the invariant |
| LoaderSpec.AssetArrivedValid | Assets/Plugins/tg.rm/Runtime/RM.cs:436-451 | the arrival of an asset keeps the invariant |
| LoaderSpec.LoadAsyncRequest | Assets/Plugins/tg.rm/Runtime/RM.cs:341-374 | from None the bundle load is requested and the request waits; while Loading it only waits; once settled extraction starts at once |
| LoaderSpec.InternalLoadAssetMeaning | Assets/Plugins/tg.rm/Runtime/RM.cs:343-369 | the four states: only None starts the main chain, and every state waits on LoadABPro |
| LoaderSpec.LoadAsyncTwiceRequestsOnce | Assets/Plugins/tg.rm/Runtime/RM.cs:184 | two LoadAsync calls for assets of one bundle request that bundle at most once |
| LoaderSpec.LoadAsyncCalls | Assets/Plugins/tg.rm/Runtime/RM.cs:597-612 | LoadAsync requests nothing but, from None, the asset's own bundle, and never changes the tables |
| LoaderSpec.LoadAsyncCacheHit | Assets/Plugins/tg.rm/Runtime/RM.cs:163-174 | a cached asset is served at once; no unit changes state and nothing is requested |
| LoaderSpec.OnABLoadedSameState | Assets/Plugins/tg.rm/Runtime/RM.cs:278-287 | the same state again changes nothing |
| LoaderSpec.OnABLoadedRunsHandlers | Assets/Plugins/tg.rm/Runtime/RM.cs:276-288 | a new state is stored, LoadABPro resolves, and each waiting request's extraction starts once, in order; no other unit changes |
| LoaderSpec.DepsSettledAfterDeps | Assets/Plugins/tg.rm/Runtime/RM.cs:192-197 | a main bundle turns Loaded only once every dependency it lists has settled |
| LoaderSpec.AssetArrivedMeaning | Assets/Plugins/tg.rm/Runtime/RM.cs:436-451 | a loaded asset is cached under the request's path and handed to the callback; a missing one hands over the bundle |
| LoaderSpec.FillOneMeaning | Assets/Plugins/tg.rm/Runtime/RM.cs:311-322 | one turn lists the model's unit unless it is the unit itself; nothing else is added |
| LoaderSpec.FillFromMeaning | Assets/Plugins/tg.rm/Runtime/RM.cs:309-323 | the loop lists exactly the units of the models given, except the unit itself, after what was listed |
| LoaderSpec.FillMeaning | Assets/Plugins/tg.rm/Runtime/RM.cs:303-327 | with the bundle in and no list yet, the list is exactly the other bundles of GetAllDependencies, each once |
| LoaderSpec.ParseMap | Assets/Plugins/tg.rm/Runtime/RM.cs:497-543 | a missing file changes nothing; an unreadable count or a negative first capacity throws before the tables exist; otherwise the tables exist |
| LoaderSpec.ParseMapValid | Assets/Plugins/tg.rm/Runtime/RM.cs:497-543 | reading the map keeps the invariant |
| LoaderSpec.ParseEncoded | Assets/Plugins/tg.rm/Runtime/RM.cs:497-543 | a fresh manager reading an encoded file reads all of it and holds exactly what was written |
| LoaderSpec.LookupAfterParse | Assets/Plugins/tg.rm/Runtime/RM.cs:650-671 | after that, a listed asset finds the bundle of its first entry |
| LoaderSpec.LookupMissingAfterParse | Assets/Plugins/tg.rm/Runtime/RM.cs:650-671 | after that, an asset the file does not list finds nothing |
| Runtime.ReadModel | Assets/Plugins/tg.rm/Runtime/RM.cs:519-527 | one bundle entry read from the front of the input is the first model of `ReadBundles` |
| Runtime.ReadIndices | Assets/Plugins/tg.rm/Runtime/RM.cs:520-526 | the inner loop yields the model with the indices of `ReadInts` |
| Runtime.RM.constructor | Assets/Plugins/tg.rm/Runtime/RM.cs:466-483 | a new manager is the initial state and satisfies the invariant |
| Runtime.RM.ParseDependenciesMap | Assets/Plugins/tg.rm/Runtime/RM.cs:497-543 | the read loops leave the state `ParseMap` gives and keep the invariant |
| Runtime.RM.ReadModels | Assets/Plugins/tg.rm/Runtime/RM.cs:517-528 | the bundle loop appends the models of `ReadBundles` |
| Runtime.RM.ReadAssetTable | Assets/Plugins/tg.rm/Runtime/RM.cs:530-541 | the asset loop leaves the first-wins table of `ReadAssets` |
| Runtime.RM.GetModelByIndex | Assets/Plugins/tg.rm/Runtime/RM.cs:621-648 | the result is `ModelByIndex` |
| Runtime.RM.GetModel | Assets/Plugins/tg.rm/Runtime/RM.cs:650-671 | the result is `ModelOf` |
| Runtime.RM.GetAllDependencies | Assets/Plugins/tg.rm/Runtime/RM.cs:550-588 | the loop's list is `AllDependencies` |
| Runtime.RM.TryGetABUnit | Assets/Plugins/tg.rm/Runtime/RM.cs:678-686 | the registry update and the unit returned are `GetUnit`; the invariant is kept |
| Runtime.RM.TryGetAssetUnit | Assets/Plugins/tg.rm/Runtime/RM.cs:697-700 | the result is `CachedAsset` |
| Runtime.RM.AddLoadedAsset | Assets/Plugins/tg.rm/Runtime/RM.cs:707-717 | the update is `AddLoadedAsset`; the invariant is kept |
| Runtime.RM.Deliver | Assets/Plugins/tg.rm/Runtime/RM.cs:401-415 | a callback that is not null is called with the object |
| Runtime.RM.ExtractAssetFromAB | Assets/Plugins/tg.rm/Runtime/RM.cs:424-458 | the update is `Extract` |
| Runtime.RM.RunHandlers | Assets/Plugins/tg.rm/Runtime/RM.cs:281 | resolving LoadABPro runs the handlers in registration order, as `ExtractAll` |
| Runtime.RM.OnABLoaded | Assets/Plugins/tg.rm/Runtime/RM.cs:276-288 | the update is `OnABLoaded` |
| Runtime.RM.Then | Assets/Plugins/tg.rm/Runtime/RM.cs:347-350 | the update is `LoaderSpec.Then` |
| Runtime.RM.InternalLoadAssetAsync | Assets/Plugins/tg.rm/Runtime/RM.cs:341-374 | the update is `InternalLoadAsset` |
| Runtime.RM.LoadAssetAsync | Assets/Plugins/tg.rm/Runtime/RM.cs:163-174 | the update is `LoaderSpec.LoadAssetAsync` |
| Runtime.RM.LoadAsync | Assets/Plugins/tg.rm/Runtime/RM.cs:597-612 | the update and the exception are `LoaderSpec.LoadAsync`; the invariant is kept |
| Runtime.RM.GetDependenciesABUnitAsync | Assets/Plugins/tg.rm/Runtime/RM.cs:303-327 | the listing loop's update and exception are `Fill` |
| Runtime.RM.AddDependency | Assets/Plugins/tg.rm/Runtime/RM.cs:311-322 | one turn is `FillOne` |
| Runtime.RM.LoadDependencies | Assets/Plugins/tg.rm/Runtime/RM.cs:229-269 | the dependency loop's update and awaited units are `LoadDepsFrom` |
| Runtime.RM.BundleArrived | Assets/Plugins/tg.rm/Runtime/RM.cs:212-222 | the update is `LoaderSpec.BundleArrived`; the invariant is kept |
| Runtime.RM.MainContinue | Assets/Plugins/tg.rm/Runtime/RM.cs:187-205 | the update is `LoaderSpec.MainContinue` |
| Runtime.RM.DepsSettled | Assets/Plugins/tg.rm/Runtime/RM.cs:193-197 | the update is `LoaderSpec.DepsSettled`; the invariant is kept |
| Runtime.RM.AssetArrived | Assets/Plugins/tg.rm/Runtime/RM.cs:436-451 | the update is `LoaderSpec.AssetArrived`; the invariant is kept |
| BundleEditor.ContainsInfix | Assets/Plugins/tg.rm/Editor/AssetBundleEditor.cs:519 | a string contains whatever sits inside it |
| BundleEditor.ContainsSplits | Assets/Plugins/tg.rm/Editor/AssetBundleEditor.cs:519 | a contained string sits inside it |
| BundleEditor.RejectedForms | Assets/Plugins/tg.rm/Editor/AssetBundleEditor.cs:517-522 | ".cs" and ".meta" endings, an "Assets/Plugins" start and "Scripts" or "Packages" anywhere are rejected |
| BundleEditor.AcceptedHasNoInfix | Assets/Plugins/tg.rm/Editor/AssetBundleEditor.cs:517-522 | an accepted path contains neither "Scripts" nor "Packages" at any position |
| BundleEditor.AcceptedWithoutCapitals | Assets/Plugins/tg.rm/Editor/AssetBundleEditor.cs:517-522 | a path with no capital S or P and no excluded ending is accepted |
| BundleEditor.DepsRec | Assets/Plugins/tg.rm/Editor/AssetBundleEditor.cs:242-261 | the set only grows and keeps its elements distinct and accepted |
| BundleEditor.DepsLoop | Assets/Plugins/tg.rm/Editor/AssetBundleEditor.cs:250-260 | the loop only grows the set |
| BundleEditor.GetDependenciesRecursive | Assets/Plugins/tg.rm/Editor/AssetBundleEditor.cs:242-261 | the recursive method leaves the set `DepsRec` gives |
| BundleEditor.DependencyClosure | Assets/Plugins/tg.rm/Editor/AssetBundleEditor.cs:242-261 | from an empty set: only accepted paths, each once, and every accepted dependency of the asset or of a collected path is collected |
| BundleEditor.MutualDependencyVisitsEachOnce | Assets/Plugins/tg.rm/Editor/AssetBundleEditor.cs:252-258 | two assets depending on each other yield both, once each, in first-met order |
| BundleEditor.RegisterExisting | Assets/Plugins/tg.rm/Editor/AssetBundleEditor.cs:56-59 | an existing bundle gets the asset through `AddAsset`; the key list is unchanged |
| BundleEditor.RegisterNew | Assets/Plugins/tg.rm/Editor/AssetBundleEditor.cs:60-64 | a new bundle is appended to the keys holding just the asset |
| BundleEditor.RegisterOk | Assets/Plugins/tg.rm/Editor/AssetBundleEditor.cs:52-66 | registering keeps the editor invariant and leaves the asset in its folder's bundle |
| BundleEditor.SetAB | Assets/Plugins/tg.rm/Editor/AssetBundleEditor.cs:32-81 | a rejected, missing or blank-holding path returns false and changes nothing; a path without importer returns true and changes nothing; an importer path without a '/' throws `ArgumentOutOfRange` (the `Substring(0, -1)` in `ConvertAssetPath2ABPath`) and changes nothing |
| BundleEditor.SetLoop | Assets/Plugins/tg.rm/Editor/AssetBundleEditor.cs:70-73 | the loop over the dependencies never returns false and stops at the first exception |
| BundleEditor.SetABOk | Assets/Plugins/tg.rm/Editor/AssetBundleEditor.cs:32-81 | from a sound state a call only adds; on true the asset and each accepted importable direct dependency are registered |
| BundleEditor.SetABRegisters | Assets/Plugins/tg.rm/Editor/AssetBundleEditor.cs:49-74 | a registering call's outcome is its dependency loop's |
| BundleEditor.SetABOverflows | Assets/Plugins/tg.rm/Editor/AssetBundleEditor.cs:67-74 | a registering call overflows exactly when its dependency loop does |
| BundleEditor.MutualReferenceOverflows | Assets/Plugins/tg.rm/Editor/AssetBundleEditor.cs:67-74 | two accepted importable assets referencing each other overflow the stack at any depth, since there is no visited set |
| BundleEditor.AddImportedMembers | Assets/Plugins/tg.rm/Editor/AssetBundleEditor.cs:212-223 | the set afterwards holds what it held plus the importable paths, and nothing else |
| BundleEditor.ImportedMembers | Assets/Plugins/tg.rm/Editor/AssetBundleEditor.cs:214-218 | the paths kept are exactly those with an importer |
| BundleEditor.AddImportedFresh | Assets/Plugins/tg.rm/Editor/AssetBundleEditor.cs:212-223 | adding paths none of which is there appends the importable ones |
| BundleEditor.AddImportedPresent | Assets/Plugins/tg.rm/Editor/AssetBundleEditor.cs:212-223 | adding paths all of which are there changes nothing |
| BundleEditor.ScanKnownAsset | Assets/Plugins/tg.rm/Editor/AssetBundleEditor.cs:203-223 | a second visit of an asset changes nothing |
| BundleEditor.ScanNewAsset | Assets/Plugins/tg.rm/Editor/AssetBundleEditor.cs:203-223 | a first visit appends the key with the importable part of its closure |
| BundleEditor.GenerateAllMeaning | Assets/Plugins/tg.rm/Editor/AssetBundleEditor.cs:176-235 | one key per importable asset of the bundles not skipped, in first-visit order without repeats; its set is the importable part of its closure |
| BundleEditor.Editor.constructor | Assets/Plugins/tg.rm/Editor/AssetBundleEditor.cs:164-169 | a new editor has an empty `abDic` |
| BundleEditor.Editor.Clear | Assets/Plugins/tg.rm/Editor/AssetBundleEditor.cs:164-170 | `abDic` is emptied; importer names stay |
| BundleEditor.Editor.SetABNameByAssetPath | Assets/Plugins/tg.rm/Editor/AssetBundleEditor.cs:32-81 | the in-place update and the result are `SetAB`'s |
| BundleEditor.Editor.SetDependencies | Assets/Plugins/tg.rm/Editor/AssetBundleEditor.cs:67-74 | the foreach over the direct dependencies is `SetLoop` |
| BundleEditor.Editor.GenerateAllABDependencies | Assets/Plugins/tg.rm/Editor/AssetBundleEditor.cs:176-235 | the loops return `GenerateAll` of the editor state and leave the state unchanged |
| BundleEditor.ScanBundle | Assets/Plugins/tg.rm/Editor/AssetBundleEditor.cs:196-230 | the loop over one bundle's assets is `ScanAssets` |
| BundleEditor.AddEach | Assets/Plugins/tg.rm/Editor/AssetBundleEditor.cs:212-223 | the loop over the closure is `AddImported` |
| MapWriter.DepABPathsMeaning | Assets/Plugins/tg.rm/Editor/AssetBundleEditor.cs:286-294 | a bundle is listed exactly when some dependency lives in it, and none twice |
| MapWriter.IndexIn | Assets/Plugins/tg.rm/Editor/AssetBundleEditor.cs:300-309 | the index is a position of the bundle in `allABPathList` |
| MapWriter.DepIndexes | Assets/Plugins/tg.rm/Editor/AssetBundleEditor.cs:339-343 | indices are written exactly when every dependency is in the list, and lead back to it; otherwise the missing key throws |
| MapWriter.BundleRecordsMeaning | Assets/Plugins/tg.rm/Editor/AssetBundleEditor.cs:321-352 | records are written exactly when every dependency bundle has an index; record i is bundle i with its dependency indices, in order |
| MapWriter.AssetRecordsMeaning | Assets/Plugins/tg.rm/Editor/AssetBundleEditor.cs:366-374 | records are written exactly when every asset's bundle has an index; record i is asset i's hash and bundle index |
| MapWriter.ByteFile | Assets/Plugins/tg.rm/Editor/AssetBundleEditor.cs:267-386 | a written file fits the int32 counts of the format |
| MapWriter.DependenciesDicMeaning | Assets/Plugins/tg.rm/Editor/AssetBundleEditor.cs:277-298 | the first pass lists a bundle exactly when `abDic` has it and a scanned asset lives in it; it gets the first such asset's dependency bundles |
| MapWriter.AbPathDependenciesMeaning | Assets/Plugins/tg.rm/Editor/AssetBundleEditor.cs:277-298 | the same for a whole scan from an empty dictionary |
| MapWriter.ByteFileWrittenIff | Assets/Plugins/tg.rm/Editor/AssetBundleEditor.cs:341 | the file is written exactly when every dependency bundle and every asset's bundle has an index; otherwise the missing key is one of those |
| MapWriter.ByteFileContents | Assets/Plugins/tg.rm/Editor/AssetBundleEditor.cs:321-374 | a written file lists the dictionary's bundles in order with their dependency indices, and each asset's hash and bundle index |
| MapWriter.DistinctAssetsMeaning | Assets/Plugins/tg.rm/Editor/AssetBundleEditor.cs:358-362 | the pair filter keeps earlier entries and adds exactly the unlisted pairs |
| MapWriter.TempAssetListMeaning | Assets/Plugins/tg.rm/Editor/AssetBundleEditor.cs:353-364 | `tempAssetList` has no pair twice, lists every asset's pair, and nothing else |
| MapWriter.GeneratedScanIsWritable | Assets/Plugins/tg.rm/Editor/AssetBundleEditor.cs:279 | every path the scan records has a '/', so the bundle conversion is defined |
| MapWriter.WrittenIndicesDistinct | Assets/Plugins/tg.rm/Editor/AssetBundleEditor.cs:286-294 | no bundle of a written file lists a dependency index twice |
| MapWriter.DecodedFileMatchesDictionary | Assets/Plugins/tg.rm/Editor/AssetBundleEditor.cs:317-374 | the runtime reads a written file completely: one model per bundle, in order, whose indices lead to its dependency bundles, and the first-wins asset table |
| MapWriter.LoaderReadsWrittenFile | Assets/Plugins/tg.rm/Editor/AssetBundleEditor.cs:366-374 | a name whose hash first appears at asset i finds that asset's bundle model, whose indices lead to the bundle's dependencies |
| MapWriter.WriteABInfo2ByteFile | Assets/Plugins/tg.rm/Editor/AssetBundleEditor.cs:267-386 | the passes emit the encoding of `ByteFile`, or report the key whose lookup throws |
| MapWriter.CollectDependencies | Assets/Plugins/tg.rm/Editor/AssetBundleEditor.cs:277-298 | the first pass builds `abPathDependenciesDic` |
| MapWriter.BundlePathsOf | Assets/Plugins/tg.rm/Editor/AssetBundleEditor.cs:286-294 | the dependency list is each dependency's bundle path, once |
| MapWriter.IndexBundles | Assets/Plugins/tg.rm/Editor/AssetBundleEditor.cs:300-309 | `allABPathList` is the dictionary's key order and each bundle maps to its own position |
| MapWriter.WriteBundles | Assets/Plugins/tg.rm/Editor/AssetBundleEditor.cs:321-352 | the bundle loop emits the encoded records or the missing key |
| MapWriter.WriteBundle | Assets/Plugins/tg.rm/Editor/AssetBundleEditor.cs:326-350 | one record: path, count, then the indices |
| MapWriter.WriteIndexes | Assets/Plugins/tg.rm/Editor/AssetBundleEditor.cs:339-343 | the indices looked up in order, or the first missing key |
| MapWriter.CollectAssets | Assets/Plugins/tg.rm/Editor/AssetBundleEditor.cs:353-364 | the loop builds `tempAssetList` |
| MapWriter.WriteAssets | Assets/Plugins/tg.rm/Editor/AssetBundleEditor.cs:366-374 | the asset loop emits each asset's hash and bundle index, or the missing key |

## Left out

- File, directory and stream I/O (`File.Exists`, `Directory.CreateDirectory`, `FileStream`, `BinaryReader`, `BinaryWriter`): the file is a sequence of integer and string tokens. The byte layout (4-byte little-endian integers, 7-bit length prefixes, UTF-8) is not modelled.
- `WriteABInfo2File`: a debug text mirror that nothing reads back.
- `BuildAB`, `BuildForAndroid`, `BuildForWindow`, `SetAllPrefabABName`, `SetAllCsvABName`, `SetAllABName`, `ClearAllABName`, `GenerateDepFile`: engine build calls and directory scans around the modelled operations.
- `Utility.Log`, `CustomSha1Hash`, the platform path helpers and the two load coroutines: logging, a foreign SHA-1 provider, platform probing and engine scheduling.
- `WaitForDependenciesAsyncLoading`: the per-frame poll is the `DepsSettled` event, delivered once no awaited unit is Loading.
- `AssetUnit.Load` and `GameObject.Instantiate`: a delivery records an instance of the asset instead.
- The Scene branches: a Scene request starts no asset load, as in the source.
- `MonoSingleton`: the one `RM` object is the class instance.
- Promise exception paths: the only exceptions modelled are a null callback and a negative table index. Exceptions thrown inside user callbacks are not modelled.
- The `#if LOG_NORMAL_ENABLE || UNITY_EDITOR` branch of ContinueWith: the model follows the other branch, which substitutes `Promise.Resolved()` for a null return.
- `ToLower` beyond ASCII: only 'A'..'Z' are lowered. For non-ASCII text the culture-sensitive `ToLower` may differ.
- Backslashes: paths use '/', since the callers replace '\\' before the calls.
- MapWriter.GeneratedScanIsWritable: assumes that Unity hands out importers only for paths with a folder part. The registration walk does not assume this: it throws `ArgumentOutOfRange`, as `Substring(0, -1)` would.
- BundleEditor.SetAB: the recursion has no visited set. It is bounded by a stack-depth parameter, and running out of it is the outcome `Threw(StackOverflow)`, which stands for the stack overflow.
- Promises.ContinueWithThenResolve: proved only for a pending promise with no earlier handler; for earlier handlers the call order is proved for `Then` (ThenThenResolve) but not for `ContinueWith`.
- Promises.AllOf: only the two ends are proved: the all-settled-inputs case, and no resolution while an input is pending. When inputs resolve later in arbitrary order, the value of All is not stated.
- Promises.PromiseWorld.Resolve: a handler that resolves a promise is run as a nested cascade, depth first. Re-entrant calls from user code into `Resolve` are not modelled.
- The asset importer's `assetPath` is taken to equal the path it was asked for.
- `ABUnitModel` is a value: `abDic` and `abUnitModelList` own their models, which are never aliased.
- MapWriter.ByteFile: the C# lists are indexed by `int`, so the scan and the asset list are required to hold fewer than 2^31 entries.
- A file left half-written when a lookup throws is not modelled. The writer reports the missing key instead.
