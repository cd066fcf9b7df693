/**
 * The state of the runtime manager (RM and its ABUnits) as a value, and every
 * operation of RM.cs as a function on that value. The class in runtime.dfy
 * performs the same operations in place and is proved equal to these
 * functions; the lemmas here state what the operations promise.
 *
 * Each ABUnit is an entry of the `units` arena; `unitOf` is abUnitsDic, from a
 * bundle path to the index of its unit, and a unit's `dependencies` are
 * indices into the same arena, so two lists holding "the same ABUnit" hold the
 * same index.
 *
 * The asynchronous engine calls become requests the manager records
 * (`loadCalls` for Utility.LoadABAsync, `assetLoads` for
 * Utility.LoadAssetAsync) and events that the environment delivers later
 * (BundleArrived, AssetArrived, DepsSettled). Every `onLoaded(obj)` call is
 * appended to `delivered`.
 */
module LoaderSpec {
  import opened Utility
  import opened BundleModel
  import opened DependencyMap

  /** ABUnit.LoadState. */
  datatype LoadState = None | Loaded | Loading | LoadFailed

  /** A reference to an engine object (an AssetBundle, a loaded asset or a callback); `Null` is C# null. */
  datatype Ref = Null | Ref(id: nat)

  /** What a load callback receives: a cached asset, a fresh instance of one, or the bundle itself. */
  datatype Obj = AssetObj(asset: nat) | InstanceObj(asset: nat) | BundleObj(bundle: Ref)

  /** One call `onLoaded(obj)`. */
  datatype Delivery = Delivery(onLoaded: nat, obj: Obj)

  /** The arguments of one LoadAsync call; a Scene type is `isScene`. */
  datatype Request = Request(assetPath: string, isScene: bool, instantiate: bool, onLoaded: Ref)

  /**
   * `loadABPro`: not created yet, pending with the extraction handlers
   * registered on it (in registration order), or resolved.
   */
  datatype ProState = NoPromise | Waiting(handlers: seq<Request>) | Settled

  /**
   * Where the unit's own load chain stands: not started; waiting for its main
   * bundle (started by a request for one of its assets, or as a dependency of
   * the bundle whose asset path is given); waiting for the Promise.All over
   * the dependencies it had to wait for; or finished.
   */
  datatype Chain =
    | Idle
    | AwaitMain(assetPath: string)
    | AwaitDep(assetPath: string)
    | AwaitDeps(assetPath: string, awaited: seq<nat>)
    | Done

  /** One ABUnit. */
  datatype Unit = Unit(
    model: ABUnitModel,
    state: LoadState,
    bundle: Ref,
    dependencies: seq<nat>,
    pro: ProState,
    chain: Chain)

  /** One pending Utility.LoadAssetAsync call, with the request it serves. */
  datatype AssetLoad = AssetLoad(unit: nat, bundle: nat, name: string, request: Request)

  /** The RM singleton. `ready` says that hash2IndexDic and abUnitModelList exist. */
  datatype RMState = RMState(
    ready: bool,
    models: seq<ABUnitModel>,
    hash2Index: map<uint32, int32>,
    units: seq<Unit>,
    unitOf: map<string, nat>,
    loadedAssets: map<string, nat>,
    loadCalls: seq<string>,
    assetLoads: seq<AssetLoad>,
    delivered: seq<Delivery>)

  /** The manager before Init: no tables, no units, nothing loaded. */
  function Initial(): RMState
  {
    RMState(false, [], map[], [], map[], map[], [], [], [])
  }

  // ---------------------------------------------------------------- lookups

  datatype ModelLookup = NoModel | Model(m: ABUnitModel) | Throws
  datatype DepsLookup = Deps(list: seq<ABUnitModel>) | DepsThrow

  /**
   * GetModelByIndex: the index is compared with the count only, so a negative
   * index reaches the list indexer, which throws.
   */
  function ModelByIndex(s: RMState, index: int): (r: ModelLookup)
    ensures r.Model? <==> s.ready && 0 <= index < |s.models|
    ensures r.Model? ==> r.m == s.models[index]
    ensures r.NoModel? <==> s.ready && index >= |s.models|
  {
    if !s.ready then Throws
    else if index < |s.models| then (if index < 0 then Throws else Model(s.models[index]))
    else NoModel
  }

  /** The key RM uses for an asset path: its case-insensitive hash. */
  function KeyOf(assetPath: string): uint32
  {
    Hash(ToLowerAscii(assetPath))
  }

  /** GetModel: look the path's hash up, then the model at that index. */
  function ModelOf(s: RMState, assetPath: string): (r: ModelLookup)
    ensures r.Model? <==>
      s.ready && KeyOf(assetPath) in s.hash2Index && 0 <= s.hash2Index[KeyOf(assetPath)] < |s.models|
    ensures r.Model? ==> r.m == s.models[s.hash2Index[KeyOf(assetPath)]]
    ensures r.Throws? <==> !s.ready || (KeyOf(assetPath) in s.hash2Index && s.hash2Index[KeyOf(assetPath)] < 0)
  {
    var key := KeyOf(assetPath);
    if !s.ready then Throws
    else if key !in s.hash2Index then NoModel
    else ModelByIndex(s, s.hash2Index[key])
  }

  /** The dependency loop of GetAllDependencies over the remaining indices. */
  function CollectDeps(s: RMState, ds: seq<int>): (r: DepsLookup)
    requires s.ready
  {
    if ds == [] then Deps([])
    else
      match ModelByIndex(s, ds[0])
      case Throws => DepsThrow
      case NoModel => CollectDeps(s, ds[1..])
      case Model(m) =>
        var rest := CollectDeps(s, ds[1..]);
        if rest.DepsThrow? then DepsThrow else Deps([m] + rest.list)
  }

  /** GetAllDependencies: the main model first, then each dependency in range. */
  function AllDependencies(s: RMState, assetPath: string): (r: DepsLookup)
  {
    match ModelOf(s, assetPath)
    case Throws => DepsThrow
    case NoModel => Deps([])
    case Model(main) =>
      var rest := CollectDeps(s, main.depIndexs);
      if rest.DepsThrow? then DepsThrow else Deps([main] + rest.list)
  }

  /**
   * The dependency loop throws exactly when some index is negative; otherwise
   * it yields the models at the in-range indices and nothing else.
   */
  lemma {:induction false} CollectDepsMeaning(s: RMState, ds: seq<int>)
    requires s.ready
    ensures CollectDeps(s, ds).DepsThrow? <==> exists i :: 0 <= i < |ds| && ds[i] < 0
    ensures CollectDeps(s, ds).Deps? ==> |CollectDeps(s, ds).list| <= |ds|
    ensures CollectDeps(s, ds).Deps? ==> forall m ::
      m in CollectDeps(s, ds).list <==> exists i :: 0 <= i < |ds| && 0 <= ds[i] < |s.models| && s.models[ds[i]] == m
  {
    if ds != [] {
      CollectDepsMeaning(s, ds[1..]);
      var r := CollectDeps(s, ds);
      var rest := CollectDeps(s, ds[1..]);
      assert forall i :: 1 <= i < |ds| ==> ds[i] == ds[1..][i - 1];
      assert (exists i :: 0 <= i < |ds| && ds[i] < 0) <==> ds[0] < 0 || exists i :: 0 <= i < |ds| - 1 && ds[1..][i] < 0 by {
        if exists i :: 0 <= i < |ds| && ds[i] < 0 {
          var i :| 0 <= i < |ds| && ds[i] < 0;
          if i > 0 {
            assert ds[1..][i - 1] < 0;
          }
        }
      }
      if r.Deps? {
        forall m
          ensures m in r.list <==> exists i :: 0 <= i < |ds| && 0 <= ds[i] < |s.models| && s.models[ds[i]] == m
        {
          if m in r.list {
            if 0 <= ds[0] < |s.models| && m == s.models[ds[0]] {
            } else {
              assert m in rest.list;
              var i :| 0 <= i < |ds| - 1 && 0 <= ds[1..][i] < |s.models| && s.models[ds[1..][i]] == m;
              assert ds[i + 1] == ds[1..][i];
            }
          }
          if exists i :: 0 <= i < |ds| && 0 <= ds[i] < |s.models| && s.models[ds[i]] == m {
            var i :| 0 <= i < |ds| && 0 <= ds[i] < |s.models| && s.models[ds[i]] == m;
            if i > 0 {
              assert ds[1..][i - 1] == ds[i];
              assert m in rest.list;
            }
          }
        }
      }
    }
  }

  /**
   * GetAllDependencies: nothing for an unknown path or an index past the end;
   * otherwise the main model first and then exactly the in-range dependency
   * models; any negative index on the way throws.
   */
  lemma AllDependenciesMeaning(s: RMState, assetPath: string)
    ensures ModelOf(s, assetPath).NoModel? ==> AllDependencies(s, assetPath) == Deps([])
    ensures ModelOf(s, assetPath).Throws? ==> AllDependencies(s, assetPath).DepsThrow?
    ensures ModelOf(s, assetPath).Model? ==>
      var main := ModelOf(s, assetPath).m;
      var r := AllDependencies(s, assetPath);
      (r.DepsThrow? <==> exists i :: 0 <= i < |main.depIndexs| && main.depIndexs[i] < 0) &&
      (r.Deps? ==> (r.list[0] == main && 1 <= |r.list| <= |main.depIndexs| + 1 &&
        forall m :: m in r.list[1..] <==>
          exists i :: 0 <= i < |main.depIndexs| && 0 <= main.depIndexs[i] < |s.models| &&
            s.models[main.depIndexs[i]] == m))
  {
    if ModelOf(s, assetPath).Model? {
      var main := ModelOf(s, assetPath).m;
      CollectDepsMeaning(s, main.depIndexs);
      var r := AllDependencies(s, assetPath);
      if r.Deps? {
        assert r.list[1..] == CollectDeps(s, main.depIndexs).list;
      }
    }
  }

  // ---------------------------------------------------------------- registry and cache

  /** abUnitsDic maps each bundle path to a unit registered under that path. */
  predicate Registry(s: RMState)
  {
    forall p :: p in s.unitOf ==> s.unitOf[p] < |s.units| && s.units[s.unitOf[p]].model.abPath == p
  }

  /** `new ABUnit(abPath)`: no state, no bundle, no dependencies, no promise. */
  function NewUnit(abPath: string): (u: Unit)
    ensures u.model.abPath == abPath && u.state == None && u.pro == NoPromise && u.chain == Idle
  {
    Unit(NewABUnitModel("", abPath), None, Null, [], NoPromise, Idle)
  }

  /** TryGetABUnit: the registered unit for the path, or a new one registered under it. */
  function GetUnit(s: RMState, abPath: string): (r: (RMState, nat))
    requires Registry(s)
    ensures Registry(r.0) && r.1 < |r.0.units| && |s.units| <= |r.0.units|
    ensures abPath in r.0.unitOf && r.0.unitOf[abPath] == r.1 && r.0.units[r.1].model.abPath == abPath
    ensures abPath in s.unitOf ==> r == (s, s.unitOf[abPath])
    ensures abPath !in s.unitOf ==>
      r.0 == s.(units := s.units + [NewUnit(abPath)], unitOf := s.unitOf[abPath := |s.units|]) &&
      r.1 == |s.units|
  {
    if abPath in s.unitOf then (s, s.unitOf[abPath])
    else (s.(units := s.units + [NewUnit(abPath)], unitOf := s.unitOf[abPath := |s.units|]), |s.units|)
  }

  /** AddLoadedAsset: insert or replace. */
  function AddLoadedAsset(s: RMState, assetPath: string, asset: nat): (s': RMState)
    ensures s'.loadedAssets.Keys == s.loadedAssets.Keys + {assetPath}
  {
    s.(loadedAssets := s.loadedAssets[assetPath := asset])
  }

  datatype Cached = NotCached | Cached(asset: nat)

  /** TryGetAssetUnit. */
  function CachedAsset(s: RMState, assetPath: string): (r: Cached)
    ensures r.Cached? <==> assetPath in s.loadedAssets
  {
    if assetPath in s.loadedAssets then Cached(s.loadedAssets[assetPath]) else NotCached
  }

  /** After AddLoadedAsset the path yields the new asset and every other path what it yielded before. */
  lemma AddThenGet(s: RMState, assetPath: string, asset: nat, other: string)
    ensures CachedAsset(AddLoadedAsset(s, assetPath, asset), assetPath) == Cached(asset)
    ensures other != assetPath ==>
      CachedAsset(AddLoadedAsset(s, assetPath, asset), other) == CachedAsset(s, other)
  {
  }

  // ---------------------------------------------------------------- extraction

  /** Path.GetFileNameWithoutExtension: the text after the last '/', cut at its last '.'. */
  function FileNameWithoutExtension(path: string): (r: string)
    ensures '/' !in r
  {
    var name := path[LastIndexOf(path, '/') + 1..];
    AfterLast(path, '/');
    var dot := LastIndexOf(name, '.');
    if dot < 0 then name else PrefixKeepsOut(name, dot, '/'); name[..dot]
  }

  /** No `c` follows the last `c`. */
  lemma AfterLast(s: string, c: char)
    ensures c !in s[LastIndexOf(s, c) + 1..]
  {
    var k := LastIndexOf(s, c);
    var t := s[k + 1..];
    forall i | 0 <= i < |t|
      ensures t[i] != c
    {
      assert t[i] == s[k + 1 + i];
    }
  }

  lemma PrefixKeepsOut(s: string, n: nat, c: char)
    requires n <= |s| && c !in s
    ensures c !in s[..n]
  {
    assert forall i :: 0 <= i < n ==> s[..n][i] == s[i];
  }

  /** The name ExtractAssetFromAB asks the bundle for: the file name, lowered, without extension. */
  function AssetNameOf(assetPath: string): (r: string)
    ensures NoUpperAscii(r)
  {
    ToLowerAscii(FileNameWithoutExtension(assetPath))
  }

  /** AssetUnit.Load: the asset itself, or an instance of it. */
  function Served(asset: nat, instantiate: bool): Obj
  {
    if instantiate then InstanceObj(asset) else AssetObj(asset)
  }

  /** Calls the callback unless it is null. */
  function Deliver(s: RMState, onLoaded: Ref, obj: Obj): (s': RMState)
  {
    if onLoaded.Null? then s else s.(delivered := s.delivered + [Delivery(onLoaded.id, obj)])
  }

  /** The asset load that ExtractAssetFromAB starts for a request, if any. */
  function ExtractLoad(u: nat, bundle: Ref, req: Request): (r: seq<AssetLoad>)
    ensures |r| <= 1 && forall k :: 0 <= k < |r| ==> r[k].unit == u && r[k].request == req
  {
    var name := AssetNameOf(req.assetPath);
    if name != "" && bundle.Ref? && !req.isScene then [AssetLoad(u, bundle.id, name, req)] else []
  }

  /**
   * ExtractAssetFromAB: with a non-empty name and a loaded bundle, start an
   * asset load (nothing for a Scene type); otherwise only log.
   */
  function Extract(s: RMState, u: nat, req: Request): (s': RMState)
    requires u < |s.units|
    ensures s' == s.(assetLoads := s.assetLoads + ExtractLoad(u, s.units[u].bundle, req))
  {
    var name := AssetNameOf(req.assetPath);
    var b := s.units[u].bundle;
    if name != "" && b.Ref? then
      if req.isScene then s else s.(assetLoads := s.assetLoads + [AssetLoad(u, b.id, name, req)])
    else s
  }

  /** The asset loads of a list of handlers, in order. */
  function ExtractLoads(u: nat, bundle: Ref, hs: seq<Request>): seq<AssetLoad>
  {
    if hs == [] then [] else ExtractLoad(u, bundle, hs[0]) + ExtractLoads(u, bundle, hs[1..])
  }

  /** Running the extraction handlers one after the other. */
  function ExtractAll(s: RMState, u: nat, hs: seq<Request>): (s': RMState)
    requires u < |s.units|
    ensures s'.units == s.units
    decreases |hs|
  {
    if hs == [] then s else ExtractAll(Extract(s, u, hs[0]), u, hs[1..])
  }

  /** Running the handlers appends exactly their asset loads, in registration order, and changes nothing else. */
  lemma {:induction false} ExtractAllMeaning(s: RMState, u: nat, hs: seq<Request>)
    requires u < |s.units|
    ensures ExtractAll(s, u, hs) == s.(assetLoads := s.assetLoads + ExtractLoads(u, s.units[u].bundle, hs))
    decreases |hs|
  {
    if hs != [] {
      var s1 := Extract(s, u, hs[0]);
      ExtractAllMeaning(s1, u, hs[1..]);
      var b := s.units[u].bundle;
      assert s1.assetLoads + ExtractLoads(u, b, hs[1..]) == s.assetLoads + ExtractLoads(u, b, hs) by {
        Assoc(s.assetLoads, ExtractLoad(u, b, hs[0]), ExtractLoads(u, b, hs[1..]));
      }
    }
  }

  lemma Assoc<T>(a: seq<T>, b: seq<T>, c: seq<T>)
    ensures a + b + c == a + (b + c)
  {
  }

  // ---------------------------------------------------------------- the LoadABPro promise

  /** `LoadABPro.Then(_ => ExtractAssetFromAB(...))`. */
  function Then(s: RMState, u: nat, req: Request): (s': RMState)
    requires u < |s.units|
    ensures KeepsUnits(s, s')
  {
    var un := s.units[u];
    match un.pro
    case NoPromise => s.(units := s.units[u := un.(pro := Waiting([req]))])
    case Waiting(hs) => s.(units := s.units[u := un.(pro := Waiting(hs + [req]))])
    case Settled => Extract(s, u, req)
  }

  /**
   * InternaleOnABLoaded: only a state different from the current one is
   * stored; it resolves LoadABPro, which runs the registered handlers.
   */
  function OnABLoaded(s: RMState, u: nat, st: LoadState): (s': RMState)
    requires u < |s.units|
  {
    var un := s.units[u];
    if un.state != st then
      var hs := if un.pro.Waiting? then un.pro.handlers else [];
      ExtractAll(s.(units := s.units[u := un.(state := st, pro := Settled)]), u, hs)
    else s
  }

  /** Replaces the unit's chain. */
  function SetChain(s: RMState, u: nat, c: Chain): (s': RMState)
    requires u < |s.units|
  {
    s.(units := s.units[u := s.units[u].(chain := c)])
  }

  // ---------------------------------------------------------------- starting loads

  /**
   * InternalLoadMainAndDependenciesABAsync, synchronous part: the unit turns
   * Loading, its bundle load is requested, and loadABPro becomes the pending
   * end of the chain.
   */
  function StartMain(s: RMState, u: nat, assetPath: string): (s': RMState)
    requires u < |s.units|
    ensures KeepsUnits(s, s')
  {
    var un := s.units[u];
    s.(units := s.units[u := un.(state := Loading, pro := Waiting([]), chain := AwaitMain(assetPath))],
       loadCalls := s.loadCalls + [un.model.abPath])
  }

  /** InternalLoadAssetAsync: start the chain from None, then wait on LoadABPro in every state. */
  function InternalLoadAsset(s: RMState, u: nat, req: Request): (s': RMState)
    requires u < |s.units|
    ensures KeepsUnits(s, s')
  {
    if s.units[u].state == None then Then(StartMain(s, u, req.assetPath), u, req)
    else Then(s, u, req)
  }

  /** ABUnit.LoadAssetAsync: serve a cached asset at once, otherwise go through the bundle. */
  function LoadAssetAsync(s: RMState, u: nat, req: Request): (s': RMState)
    requires u < |s.units|
    ensures KeepsUnits(s, s')
  {
    match CachedAsset(s, req.assetPath)
    case Cached(a) => if req.isScene then s else Deliver(s, req.onLoaded, Served(a, req.instantiate))
    case NotCached => InternalLoadAsset(s, u, req)
  }

  /** The same units, under the same paths, with the same models. */
  predicate KeepsUnits(s: RMState, s': RMState)
  {
    s'.ready == s.ready && s'.models == s.models && s'.hash2Index == s.hash2Index && s'.unitOf == s.unitOf && |s'.units| == |s.units| &&
    forall i :: 0 <= i < |s.units| ==> s'.units[i].model == s.units[i].model
  }

  /** RM.LoadAsync; `thrown` is the exception a negative table index raises in GetModel. */
  function LoadAsync(s: RMState, req: Request): (r: (RMState, bool))
    requires Registry(s)
    ensures Registry(r.0)
    ensures r.0.ready == s.ready && r.0.models == s.models && r.0.hash2Index == s.hash2Index
  {
    if req.assetPath == "" then (s, false)
    else
      match ModelOf(s, req.assetPath)
      case Throws => (s, true)
      case NoModel => (s, false)
      case Model(m) =>
        var (s1, u) := GetUnit(s, m.abPath);
        (LoadAssetAsync(s1, u, req), false)
  }

  // ---------------------------------------------------------------- dependencies

  /** Every dependency index of unit `u` names a unit. */
  predicate DepsBounded(s: RMState, u: nat)
    requires u < |s.units|
  {
    forall k :: 0 <= k < |s.units[u].dependencies| ==> s.units[u].dependencies[k] < |s.units|
  }

  /** One turn of the GetDependenciesABUnitAsync loop: register the model's unit unless it is the unit itself or already listed. */
  function FillOne(s: RMState, u: nat, m: ABUnitModel): (s': RMState)
    requires u < |s.units| && Registry(s)
    ensures |s.units| <= |s'.units| && Registry(s')
    ensures DepsBounded(s, u) ==> DepsBounded(s', u)
  {
    if m.abPath == s.units[u].model.abPath then s
    else
      var (s1, d) := GetUnit(s, m.abPath);
      GetUnitKeeps(s, m.abPath, u);
      if d in s1.units[u].dependencies then s1
      else
        AddDepKeeps(s1, u, d);
        s1.(units := s1.units[u := s1.units[u].(dependencies := s1.units[u].dependencies + [d])])
  }

  lemma AddDepKeeps(s: RMState, u: nat, d: nat)
    requires Registry(s) && u < |s.units|
    ensures var s' := s.(units := s.units[u := s.units[u].(dependencies := s.units[u].dependencies + [d])]);
      Registry(s') && (DepsBounded(s, u) && d < |s.units| ==> DepsBounded(s', u))
  {
    var s' := s.(units := s.units[u := s.units[u].(dependencies := s.units[u].dependencies + [d])]);
    forall p | p in s'.unitOf ensures s'.unitOf[p] < |s'.units| && s'.units[s'.unitOf[p]].model.abPath == p {
      assert s'.units[s.unitOf[p]].model == s.units[s.unitOf[p]].model;
    }
    if DepsBounded(s, u) && d < |s.units| {
      var ds := s'.units[u].dependencies;
      forall k | 0 <= k < |ds| ensures ds[k] < |s'.units| {
        if k < |s.units[u].dependencies| { assert ds[k] == s.units[u].dependencies[k]; }
      }
    }
  }

  /** The GetDependenciesABUnitAsync loop over a model list. */
  function FillFrom(s: RMState, u: nat, list: seq<ABUnitModel>): (s': RMState)
    requires u < |s.units| && Registry(s)
    ensures |s.units| <= |s'.units| && Registry(s')
    ensures DepsBounded(s, u) ==> DepsBounded(s', u)
    decreases |list|
  {
    if list == [] then s else FillFrom(FillOne(s, u, list[0]), u, list[1..])
  }

  /**
   * GetDependenciesABUnitAsync: with the bundle loaded and no dependencies
   * yet, list the units of GetAllDependencies(assetPath); `thrown` is its
   * exception.
   */
  function Fill(s: RMState, u: nat, assetPath: string): (r: (RMState, bool))
    requires u < |s.units| && Registry(s)
    ensures |s.units| <= |r.0.units| && Registry(r.0)
    ensures DepsBounded(s, u) ==> DepsBounded(r.0, u)
  {
    if s.units[u].bundle.Ref? && s.units[u].dependencies == [] then
      match AllDependencies(s, assetPath)
      case DepsThrow => (s, true)
      case Deps(list) => (FillFrom(s, u, list), false)
    else (s, false)
  }

  /**
   * One turn of InternaleLoadDependenciesABAsync: a settled dependency is
   * skipped, a loading one is waited for, and an unloaded one is marked
   * Loading, its bundle requested, and waited for.
   */
  function LoadDep(s: RMState, d: nat, assetPath: string, awaited: seq<nat>): (r: (RMState, seq<nat>))
    requires d < |s.units|
    ensures |r.0.units| == |s.units|
  {
    var dn := s.units[d];
    match dn.state
    case Loaded => (s, awaited)
    case LoadFailed => (s, awaited)
    case Loading => (s, awaited + [d])
    case None =>
      (s.(units := s.units[d := dn.(state := Loading, chain := AwaitDep(assetPath))],
          loadCalls := s.loadCalls + [dn.model.abPath]),
       awaited + [d])
  }

  /** The InternaleLoadDependenciesABAsync loop over the remaining dependencies. */
  function LoadDepsFrom(s: RMState, deps: seq<nat>, assetPath: string, awaited: seq<nat>): (r: (RMState, seq<nat>))
    requires forall k :: 0 <= k < |deps| ==> deps[k] < |s.units|
    ensures |r.0.units| == |s.units|
    decreases |deps|
  {
    if deps == [] then (s, awaited)
    else
      var (s1, aw1) := LoadDep(s, deps[0], assetPath, awaited);
      LoadDepsFrom(s1, deps[1..], assetPath, aw1)
  }

  // ---------------------------------------------------------------- events

  /**
   * The bundle load of unit `u` completes with `b`. For a main load: store
   * it, list the dependencies, then fail (no bundle, or the listing threw),
   * or finish at once when no dependency has to be waited for, or wait for
   * them. For a dependency load: store it, list its dependencies, and finish
   * as Loaded or LoadFailed by whether a bundle came back.
   */
  function BundleArrived(s: RMState, u: nat, b: Ref): (s': RMState)
    requires u < |s.units| && (s.units[u].chain.AwaitMain? || s.units[u].chain.AwaitDep?)
    requires DepsBounded(s, u) && Registry(s)
  {
    var a := s.units[u].chain.assetPath;
    var s1 := s.(units := s.units[u := s.units[u].(bundle := b)]);
    assert DepsBounded(s1, u);
    var (s2, thrown) := Fill(s1, u, a);
    if s.units[u].chain.AwaitMain? then MainContinue(s2, u, a, if thrown then Null else b)
    else OnABLoaded(SetChain(s2, u, Done), u, if s2.units[u].bundle.Ref? then Loaded else LoadFailed)
  }

  /**
   * The last link of the main chain, given the value the listing passed on:
   * no bundle fails the unit; otherwise the dependencies are loaded, and the
   * unit is Loaded at once when none of them has to be waited for.
   */
  function MainContinue(s2: RMState, u: nat, a: string, mainAB: Ref): (s': RMState)
    requires u < |s2.units| && DepsBounded(s2, u)
  {
    if mainAB.Null? then OnABLoaded(SetChain(s2, u, Done), u, LoadFailed)
    else
      var (s3, aw) := LoadDepsFrom(s2, s2.units[u].dependencies, a, []);
      if aw == [] then OnABLoaded(SetChain(s3, u, Done), u, Loaded)
      else SetChain(s3, u, AwaitDeps(a, aw))
  }

  /** The Promise.All over the awaited dependencies resolves once none of them is Loading. */
  predicate DepsReady(s: RMState, u: nat)
    requires u < |s.units|
  {
    s.units[u].chain.AwaitDeps? &&
    forall k :: 0 <= k < |s.units[u].chain.awaited| ==>
      s.units[u].chain.awaited[k] < |s.units| && s.units[s.units[u].chain.awaited[k]].state != Loading
  }

  /** The main bundle's dependencies are in: InternaleOnABLoaded(this, Loaded). */
  function DepsSettled(s: RMState, u: nat): (s': RMState)
    requires u < |s.units| && DepsReady(s, u)
  {
    OnABLoaded(SetChain(s, u, Done), u, Loaded)
  }

  /**
   * The asset load `k` completes with `asset`: a loaded asset is cached and
   * served, and a missing one hands the unit's bundle to the callback.
   */
  function AssetArrived(s: RMState, k: nat, asset: Ref): (s': RMState)
    requires k < |s.assetLoads| && s.assetLoads[k].unit < |s.units|
  {
    var al := s.assetLoads[k];
    var s1 := s.(assetLoads := s.assetLoads[..k] + s.assetLoads[k + 1..]);
    if asset.Ref? then
      Deliver(AddLoadedAsset(s1, al.request.assetPath, asset.id), al.request.onLoaded, Served(asset.id, al.request.instantiate))
    else Deliver(s1, al.request.onLoaded, BundleObj(s1.units[al.unit].bundle))
  }

  // ---------------------------------------------------------------- the invariant

  /** A terminal load state. */
  predicate Settles(st: LoadState)
  {
    st == Loaded || st == LoadFailed
  }

  /**
   * What holds of one unit on its own: its dependencies are other units and
   * distinct; an untouched unit has no chain, promise, dependencies or
   * bundle; a Loading unit is inside its chain and its promise is unresolved;
   * a settled unit has finished its chain and resolved its promise.
   */
  predicate UnitShape(un: Unit, i: nat, n: nat)
  {
    (forall k :: 0 <= k < |un.dependencies| ==> un.dependencies[k] < n && un.dependencies[k] != i) &&
    NoDup(un.dependencies) &&
    (un.state == None <==> un.chain.Idle?) &&
    (un.state == None ==> un.pro == NoPromise && un.dependencies == [] && un.bundle == Null) &&
    (un.state == Loading <==> (un.chain.AwaitMain? || un.chain.AwaitDep? || un.chain.AwaitDeps?)) &&
    (un.state == Loading ==> !un.pro.Settled?) &&
    (Settles(un.state) <==> un.chain.Done?) &&
    (Settles(un.state) ==> un.pro.Settled?)
  }

  /**
   * A unit waiting on its Promise.All: every awaited unit has been started,
   * and every dependency it does not wait for had already settled.
   */
  predicate AwaitOk(s: RMState, i: nat)
    requires i < |s.units| && s.units[i].chain.AwaitDeps?
  {
    var un := s.units[i];
    var aw := un.chain.awaited;
    (forall k :: 0 <= k < |aw| ==> aw[k] < |s.units| && s.units[aw[k]].state != None) &&
    (forall k :: 0 <= k < |un.dependencies| && un.dependencies[k] !in aw ==>
      un.dependencies[k] < |s.units| && Settles(s.units[un.dependencies[k]].state))
  }

  predicate UnitOk(s: RMState, i: nat)
    requires i < |s.units|
  {
    UnitShape(s.units[i], i, |s.units|) && (s.units[i].chain.AwaitDeps? ==> AwaitOk(s, i))
  }

  /** Each unit is registered under its own path, so no two units share a path. */
  predicate Injective(s: RMState)
  {
    forall i :: 0 <= i < |s.units| ==> s.units[i].model.abPath in s.unitOf && s.unitOf[s.units[i].model.abPath] == i
  }

  /**
   * The bundle loads requested so far: no bundle twice, and a unit's bundle
   * has been requested exactly when the unit has left None.
   */
  predicate CallsOk(s: RMState)
  {
    NoDup(s.loadCalls) &&
    (forall k :: 0 <= k < |s.loadCalls| ==> s.loadCalls[k] in s.unitOf) &&
    (forall i :: 0 <= i < |s.units| ==> (s.units[i].state != None <==> s.units[i].model.abPath in s.loadCalls))
  }

  predicate LoadsOk(s: RMState)
  {
    forall k :: 0 <= k < |s.assetLoads| ==> s.assetLoads[k].unit < |s.units|
  }

  predicate Valid(s: RMState)
  {
    Registry(s) && Injective(s) && CallsOk(s) && LoadsOk(s) &&
    forall i :: 0 <= i < |s.units| ==> UnitOk(s, i)
  }

  lemma InitialValid()
    ensures Valid(Initial())
  {
  }

  /**
   * The way a unit may change between two states of the manager: same model,
   * None only towards Loading, Loading only towards a terminal state, and a
   * terminal state kept.
   */
  predicate Grows(s: RMState, s': RMState)
  {
    |s.units| <= |s'.units| &&
    forall i :: 0 <= i < |s.units| ==>
      s'.units[i].model == s.units[i].model &&
      (s.units[i].state != None ==> s'.units[i].state != None) &&
      (Settles(s.units[i].state) ==> s'.units[i].state == s.units[i].state)
  }

  /** A unit whose own fields did not change stays well formed when the others only grow. */
  lemma UnitOkStable(s: RMState, s': RMState, j: nat)
    requires j < |s.units| && UnitOk(s, j) && Grows(s, s') && s'.units[j] == s.units[j]
    ensures UnitOk(s', j)
  {
    var un := s.units[j];
    if un.chain.AwaitDeps? {
      var aw := un.chain.awaited;
      forall k | 0 <= k < |un.dependencies| && un.dependencies[k] !in aw
        ensures un.dependencies[k] < |s'.units| && Settles(s'.units[un.dependencies[k]].state)
      {
      }
      forall k | 0 <= k < |aw|
        ensures aw[k] < |s'.units| && s'.units[aw[k]].state != None
      {
      }
    }
  }

  /** Registering a new unit keeps the invariant. */
  lemma GetUnitValid(s: RMState, abPath: string)
    requires Valid(s)
    ensures Valid(GetUnit(s, abPath).0) && Grows(s, GetUnit(s, abPath).0)
    ensures GetUnit(s, abPath).0.loadCalls == s.loadCalls
    ensures GetUnit(s, abPath).0.assetLoads == s.assetLoads
    ensures GetUnit(s, abPath).0.delivered == s.delivered
    ensures forall i :: 0 <= i < |s.units| ==> GetUnit(s, abPath).0.units[i] == s.units[i]
  {
    if abPath !in s.unitOf {
      var s' := GetUnit(s, abPath).0;
      assert abPath !in s.loadCalls;
      forall i | 0 <= i < |s'.units|
        ensures UnitOk(s', i)
      {
        if i < |s.units| {
          UnitOkStable(s, s', i);
        }
      }
      assert Injective(s') by {
        forall i | 0 <= i < |s'.units|
          ensures s'.units[i].model.abPath in s'.unitOf && s'.unitOf[s'.units[i].model.abPath] == i
        {
          if i < |s.units| {
            assert s.units[i].model.abPath != abPath;
          }
        }
      }
    }
  }

  /** Moving a unit from None to Loading while requesting its bundle. */
  function Start(s: RMState, u: nat, c: Chain, p: ProState): (s': RMState)
    requires u < |s.units|
  {
    var un := s.units[u];
    s.(units := s.units[u := un.(state := Loading, pro := p, chain := c)],
       loadCalls := s.loadCalls + [un.model.abPath])
  }

  /** Starting a load from None keeps the invariant; the bundle was never requested before. */
  lemma StartValid(s: RMState, u: nat, c: Chain, p: ProState)
    requires Valid(s) && u < |s.units| && s.units[u].state == None
    requires (c.AwaitMain? || c.AwaitDep?) && !p.Settled?
    ensures Valid(Start(s, u, c, p)) && Grows(s, Start(s, u, c, p))
    ensures s.units[u].model.abPath !in s.loadCalls
  {
    var s' := Start(s, u, c, p);
    var path := s.units[u].model.abPath;
    assert UnitOk(s, u);
    assert path !in s.loadCalls;
    assert Grows(s, s');
    assert NoDup(s'.loadCalls) by {
      forall i, j | 0 <= i < j < |s'.loadCalls|
        ensures s'.loadCalls[i] != s'.loadCalls[j]
      {
        if j == |s.loadCalls| {
          assert s'.loadCalls[i] == s.loadCalls[i];
        }
      }
    }
    forall i | 0 <= i < |s'.units|
      ensures UnitOk(s', i)
    {
      if i != u {
        UnitOkStable(s, s', i);
      }
    }
    forall i | 0 <= i < |s'.units|
      ensures s'.units[i].state != None <==> s'.units[i].model.abPath in s'.loadCalls
    {
      if i != u {
        assert s.units[i].model.abPath != path by {
          assert Injective(s);
        }
      }
    }
    assert Registry(s') by {
      forall q | q in s'.unitOf
        ensures s'.unitOf[q] < |s'.units| && s'.units[s'.unitOf[q]].model.abPath == q
      {
      }
    }
  }

  /** Starting a main load from None keeps the invariant. */
  lemma StartMainValid(s: RMState, u: nat, assetPath: string)
    requires Valid(s) && u < |s.units| && s.units[u].state == None
    ensures Valid(StartMain(s, u, assetPath)) && Grows(s, StartMain(s, u, assetPath))
  {
    assert StartMain(s, u, assetPath) == Start(s, u, AwaitMain(assetPath), Waiting([]));
    StartValid(s, u, AwaitMain(assetPath), Waiting([]));
  }

  /** A change outside the units, the registry, the requests and the pending asset loads keeps the invariant. */
  lemma SameUnitsValid(s: RMState, s': RMState)
    requires Valid(s) && s'.units == s.units && s'.unitOf == s.unitOf
    requires s'.loadCalls == s.loadCalls && s'.assetLoads == s.assetLoads
    ensures Valid(s') && Grows(s, s')
  {
    forall i | 0 <= i < |s'.units|
      ensures UnitOk(s', i)
    {
      assert UnitOk(s, i);
    }
  }

  /** Starting asset loads for a unit keeps the invariant. */
  lemma ExtractValid(s: RMState, u: nat, req: Request)
    requires Valid(s) && u < |s.units|
    ensures Valid(Extract(s, u, req)) && Grows(s, Extract(s, u, req))
    ensures Extract(s, u, req).loadCalls == s.loadCalls
  {
    MoreLoadsValid(s, Extract(s, u, req), ExtractLoad(u, s.units[u].bundle, req));
  }

  /** Pending asset loads of existing units may be added at will. */
  lemma MoreLoadsValid(s: RMState, s': RMState, ls: seq<AssetLoad>)
    requires Valid(s) && s' == s.(assetLoads := s.assetLoads + ls)
    requires forall k :: 0 <= k < |ls| ==> ls[k].unit < |s.units|
    ensures Valid(s') && Grows(s, s')
  {
    forall i | 0 <= i < |s'.units|
      ensures UnitOk(s', i)
    {
      assert UnitOk(s, i);
    }
    forall k | 0 <= k < |s'.assetLoads|
      ensures s'.assetLoads[k].unit < |s'.units|
    {
      if k >= |s.assetLoads| {
        assert s'.assetLoads[k] == ls[k - |s.assetLoads|];
      }
    }
  }

  lemma ExtractAllValid(s: RMState, u: nat, hs: seq<Request>)
    requires Valid(s) && u < |s.units|
    ensures Valid(ExtractAll(s, u, hs)) && Grows(s, ExtractAll(s, u, hs))
    ensures ExtractAll(s, u, hs).loadCalls == s.loadCalls
  {
    ExtractAllMeaning(s, u, hs);
    var s' := ExtractAll(s, u, hs);
    forall i | 0 <= i < |s'.units|
      ensures UnitOk(s', i)
    {
      assert UnitOk(s, i);
    }
    assert LoadsOk(s') by {
      var ls := ExtractLoads(u, s.units[u].bundle, hs);
      ExtractLoadsUnit(u, s.units[u].bundle, hs);
      forall k | 0 <= k < |s'.assetLoads|
        ensures s'.assetLoads[k].unit < |s'.units|
      {
        if k >= |s.assetLoads| {
          assert s'.assetLoads[k] == ls[k - |s.assetLoads|];
        }
      }
    }
  }

  lemma {:induction false} ExtractLoadsUnit(u: nat, bundle: Ref, hs: seq<Request>)
    ensures forall k :: 0 <= k < |ExtractLoads(u, bundle, hs)| ==> ExtractLoads(u, bundle, hs)[k].unit == u
    decreases |hs|
  {
    if hs != [] {
      ExtractLoadsUnit(u, bundle, hs[1..]);
    }
  }

  /** A Loading unit may get a new unresolved promise. */
  lemma SetProValid(s: RMState, u: nat, p: ProState)
    requires Valid(s) && u < |s.units| && s.units[u].state == Loading && !p.Settled?
    ensures Valid(s.(units := s.units[u := s.units[u].(pro := p)]))
    ensures Grows(s, s.(units := s.units[u := s.units[u].(pro := p)]))
  {
    var s' := s.(units := s.units[u := s.units[u].(pro := p)]);
    assert UnitOk(s, u);
    if s.units[u].chain.AwaitDeps? {
      AwaitOkSameStates(s, s', u);
    }
    assert UnitOk(s', u);
    ReplaceUnitValid(s, u, s'.units[u]);
  }

  /** Registering a handler on (or running it against) a started unit keeps the invariant. */
  lemma ThenValid(s: RMState, u: nat, req: Request)
    requires Valid(s) && u < |s.units| && s.units[u].state != None
    ensures Valid(Then(s, u, req)) && Grows(s, Then(s, u, req))
    ensures Then(s, u, req).loadCalls == s.loadCalls
  {
    assert UnitOk(s, u);
    var un := s.units[u];
    match un.pro
    case NoPromise => SetProValid(s, u, Waiting([req]));
    case Waiting(hs) => SetProValid(s, u, Waiting(hs + [req]));
    case Settled => ExtractValid(s, u, req);
  }

  lemma InternalLoadAssetValid(s: RMState, u: nat, req: Request)
    requires Valid(s) && u < |s.units|
    ensures Valid(InternalLoadAsset(s, u, req)) && Grows(s, InternalLoadAsset(s, u, req))
  {
    if s.units[u].state == None {
      StartMainValid(s, u, req.assetPath);
      ThenValid(StartMain(s, u, req.assetPath), u, req);
    } else {
      ThenValid(s, u, req);
    }
  }

  lemma LoadAssetAsyncValid(s: RMState, u: nat, req: Request)
    requires Valid(s) && u < |s.units|
    ensures Valid(LoadAssetAsync(s, u, req)) && Grows(s, LoadAssetAsync(s, u, req))
  {
    if CachedAsset(s, req.assetPath).NotCached? {
      InternalLoadAssetValid(s, u, req);
    } else if !req.isScene {
      SameUnitsValid(s, LoadAssetAsync(s, u, req));
    }
  }

  /** LoadAsync keeps the invariant (and so never requests a bundle twice). */
  lemma LoadAsyncValid(s: RMState, req: Request)
    requires Valid(s)
    ensures Valid(LoadAsync(s, req).0) && Grows(s, LoadAsync(s, req).0)
  {
    var look := ModelOf(s, req.assetPath);
    if req.assetPath != "" && look.Model? {
      GetUnitValid(s, look.m.abPath);
      var r := GetUnit(s, look.m.abPath);
      LoadAssetAsyncValid(r.0, r.1, req);
      assert LoadAsync(s, req).0 == LoadAssetAsync(r.0, r.1, req);
    }
  }

  // ---------------------------------------------------------------- BundleArrived keeps the invariant

  /**
   * Replacing one unit by another with the same model and state keeps the
   * invariant once the new unit is well formed in the new state.
   */
  lemma ReplaceUnitValid(s: RMState, u: nat, un: Unit)
    requires Valid(s) && u < |s.units|
    requires un.model == s.units[u].model && un.state == s.units[u].state
    requires UnitOk(s.(units := s.units[u := un]), u)
    ensures Valid(s.(units := s.units[u := un])) && Grows(s, s.(units := s.units[u := un]))
  {
    var s' := s.(units := s.units[u := un]);
    assert Grows(s, s');
    forall i | 0 <= i < |s'.units|
      ensures UnitOk(s', i)
    {
      if i != u {
        UnitOkStable(s, s', i);
      }
    }
    assert Registry(s') by {
      forall p | p in s'.unitOf
        ensures s'.unitOf[p] < |s'.units| && s'.units[s'.unitOf[p]].model.abPath == p
      {
      }
    }
  }

  /** A unit's AwaitOk only looks at the states of the others, so it survives a change that keeps every state. */
  lemma AwaitOkSameStates(s: RMState, s': RMState, u: nat)
    requires u < |s.units| && |s'.units| == |s.units| && s.units[u].chain.AwaitDeps? && AwaitOk(s, u)
    requires s'.units[u].chain == s.units[u].chain && s'.units[u].dependencies == s.units[u].dependencies
    requires forall i :: 0 <= i < |s.units| ==> s'.units[i].state == s.units[i].state
    ensures AwaitOk(s', u)
  {
  }

  /** A unit inside its load chain may store the bundle it got. */
  lemma SetBundleValid(s: RMState, u: nat, b: Ref)
    requires Valid(s) && u < |s.units| && s.units[u].state == Loading
    ensures Valid(s.(units := s.units[u := s.units[u].(bundle := b)]))
    ensures Grows(s, s.(units := s.units[u := s.units[u].(bundle := b)]))
  {
    var s' := s.(units := s.units[u := s.units[u].(bundle := b)]);
    assert UnitOk(s, u);
    if s.units[u].chain.AwaitDeps? {
      AwaitOkSameStates(s, s', u);
    }
    assert UnitOk(s', u);
    ReplaceUnitValid(s, u, s'.units[u]);
  }

  /** Appending a new dependency (another unit, not listed yet) to a unit that is not waiting on its deps. */
  lemma AddDepValid(s: RMState, u: nat, d: nat)
    requires Valid(s) && u < |s.units| && s.units[u].state == Loading && !s.units[u].chain.AwaitDeps?
    requires d < |s.units| && d != u && d !in s.units[u].dependencies
    ensures var un := s.units[u];
      Valid(s.(units := s.units[u := un.(dependencies := un.dependencies + [d])]))
  {
    var un := s.units[u];
    var s' := s.(units := s.units[u := un.(dependencies := un.dependencies + [d])]);
    assert UnitOk(s, u);
    assert UnitShape(s'.units[u], u, |s'.units|) by {
      var ds := un.dependencies + [d];
      forall i, j | 0 <= i < j < |ds|
        ensures ds[i] != ds[j]
      {
        if j == |un.dependencies| {
          assert ds[i] == un.dependencies[i];
        }
      }
    }
    assert UnitOk(s', u);
    ReplaceUnitValid(s, u, s'.units[u]);
  }

  /** One turn of the dependency listing keeps the invariant and touches only the unit's list. */
  lemma FillOneValid(s: RMState, u: nat, m: ABUnitModel)
    requires Valid(s) && u < |s.units| && s.units[u].state == Loading && !s.units[u].chain.AwaitDeps?
    ensures var s' := FillOne(s, u, m);
      Valid(s') && Grows(s, s') && s'.loadCalls == s.loadCalls && s'.assetLoads == s.assetLoads &&
      s'.delivered == s.delivered &&
      s'.units[u] == s.units[u].(dependencies := s'.units[u].dependencies) &&
      forall i :: 0 <= i < |s.units| && i != u ==> s'.units[i] == s.units[i]
  {
    if m.abPath != s.units[u].model.abPath {
      GetUnitValid(s, m.abPath);
      var (s1, d) := GetUnit(s, m.abPath);
      if d !in s1.units[u].dependencies {
        assert d != u by {
          assert Injective(s1);
        }
        AddDepValid(s1, u, d);
      }
    }
  }

  lemma {:induction false} FillFromValid(s: RMState, u: nat, list: seq<ABUnitModel>)
    requires Valid(s) && u < |s.units| && s.units[u].state == Loading && !s.units[u].chain.AwaitDeps?
    ensures var s' := FillFrom(s, u, list);
      Valid(s') && Grows(s, s') && s'.loadCalls == s.loadCalls && s'.assetLoads == s.assetLoads &&
      s'.delivered == s.delivered &&
      s'.units[u] == s.units[u].(dependencies := s'.units[u].dependencies) &&
      forall i :: 0 <= i < |s.units| && i != u ==> s'.units[i] == s.units[i]
    decreases |list|
  {
    if list != [] {
      FillOneValid(s, u, list[0]);
      FillFromValid(FillOne(s, u, list[0]), u, list[1..]);
    }
  }

  lemma FillValid(s: RMState, u: nat, assetPath: string)
    requires Valid(s) && u < |s.units| && s.units[u].state == Loading && !s.units[u].chain.AwaitDeps?
    ensures var s' := Fill(s, u, assetPath).0;
      Valid(s') && Grows(s, s') && s'.loadCalls == s.loadCalls && s'.assetLoads == s.assetLoads &&
      s'.delivered == s.delivered &&
      s'.units[u] == s.units[u].(dependencies := s'.units[u].dependencies) &&
      forall i :: 0 <= i < |s.units| && i != u ==> s'.units[i] == s.units[i]
  {
    if s.units[u].bundle.Ref? && s.units[u].dependencies == [] {
      var all := AllDependencies(s, assetPath);
      if all.Deps? {
        FillFromValid(s, u, all.list);
      }
    }
  }

  /** Moving a Loading unit to a terminal state with its chain finished and its promise resolved. */
  lemma SettleValid(s: RMState, u: nat, st: LoadState)
    requires Valid(s) && u < |s.units| && s.units[u].state == Loading && Settles(st)
    ensures var s1 := s.(units := s.units[u := s.units[u].(state := st, pro := Settled, chain := Done)]);
      Valid(s1) && Grows(s, s1)
  {
    var s1 := s.(units := s.units[u := s.units[u].(state := st, pro := Settled, chain := Done)]);
    assert UnitOk(s, u);
    assert Grows(s, s1);
    forall i | 0 <= i < |s1.units|
      ensures UnitOk(s1, i)
    {
      if i != u {
        UnitOkStable(s, s1, i);
      }
    }
  }

  /** The finishing step, unfolded. */
  lemma FinishUnfold(s: RMState, u: nat, st: LoadState)
    requires u < |s.units| && s.units[u].state != st
    ensures var un := s.units[u];
      OnABLoaded(SetChain(s, u, Done), u, st) ==
        ExtractAll(s.(units := s.units[u := un.(state := st, pro := Settled, chain := Done)]), u,
          if un.pro.Waiting? then un.pro.handlers else [])
  {
    var un := s.units[u];
    var s0 := SetChain(s, u, Done);
    assert s0.units[u] == un.(chain := Done);
    assert s0.(units := s0.units[u := s0.units[u].(state := st, pro := Settled)]) ==
      s.(units := s.units[u := un.(state := st, pro := Settled, chain := Done)]);
  }

  /** Finishing a unit's chain in a terminal state keeps the invariant. */
  lemma FinishValid(s: RMState, u: nat, st: LoadState)
    requires Valid(s) && u < |s.units| && s.units[u].state == Loading && Settles(st)
    ensures Valid(OnABLoaded(SetChain(s, u, Done), u, st)) && Grows(s, OnABLoaded(SetChain(s, u, Done), u, st))
    ensures OnABLoaded(SetChain(s, u, Done), u, st).loadCalls == s.loadCalls
  {
    var un := s.units[u];
    var hs := if un.pro.Waiting? then un.pro.handlers else [];
    var s1 := s.(units := s.units[u := un.(state := st, pro := Settled, chain := Done)]);
    FinishUnfold(s, u, st);
    SettleValid(s, u, st);
    ExtractAllValid(s1, u, hs);
    GrowsTrans(s, s1, ExtractAll(s1, u, hs));
  }

  lemma GrowsTrans(s1: RMState, s2: RMState, s3: RMState)
    requires Grows(s1, s2) && Grows(s2, s3)
    ensures Grows(s1, s3)
  {
  }

  /** What the dependency loop has established so far about the units it waits for. */
  predicate AwaitedStarted(s: RMState, aw: seq<nat>)
  {
    forall k :: 0 <= k < |aw| ==> aw[k] < |s.units| && s.units[aw[k]].state != None
  }

  /** One turn of the dependency loop keeps the invariant and waits for the dependency unless it has settled. */
  lemma LoadDepValid(s: RMState, u: nat, d: nat, assetPath: string, aw: seq<nat>)
    requires Valid(s) && u < |s.units| && s.units[u].chain.AwaitMain? && d < |s.units| && d != u
    requires AwaitedStarted(s, aw)
    ensures var r := LoadDep(s, d, assetPath, aw);
      Valid(r.0) && Grows(s, r.0) && r.0.units[u] == s.units[u] && aw <= r.1 && AwaitedStarted(r.0, r.1) &&
      (d in r.1 || Settles(r.0.units[d].state)) &&
      forall i :: 0 <= i < |s.units| ==> r.0.units[i].dependencies == s.units[i].dependencies
  {
    var dn := s.units[d];
    if dn.state == None {
      assert UnitOk(s, d);
      assert LoadDep(s, d, assetPath, aw).0 == Start(s, d, AwaitDep(assetPath), dn.pro);
      StartValid(s, d, AwaitDep(assetPath), dn.pro);
    }
    var r := LoadDep(s, d, assetPath, aw);
    assert (aw + [d])[|aw|] == d;
  }

  lemma {:induction false} LoadDepsFromValid(s: RMState, u: nat, deps: seq<nat>, assetPath: string, aw: seq<nat>)
    requires Valid(s) && u < |s.units| && s.units[u].chain.AwaitMain?
    requires forall k :: 0 <= k < |deps| ==> deps[k] < |s.units| && deps[k] != u
    requires AwaitedStarted(s, aw)
    ensures var r := LoadDepsFrom(s, deps, assetPath, aw);
      Valid(r.0) && Grows(s, r.0) && r.0.units[u] == s.units[u] && aw <= r.1 && AwaitedStarted(r.0, r.1) &&
      (forall k :: 0 <= k < |deps| ==> deps[k] in r.1 || Settles(r.0.units[deps[k]].state)) &&
      forall i :: 0 <= i < |s.units| ==> r.0.units[i].dependencies == s.units[i].dependencies
    decreases |deps|
  {
    if deps != [] {
      LoadDepValid(s, u, deps[0], assetPath, aw);
      var (s1, aw1) := LoadDep(s, deps[0], assetPath, aw);
      LoadDepsFromValid(s1, u, deps[1..], assetPath, aw1);
      var r := LoadDepsFrom(s1, deps[1..], assetPath, aw1);
      forall k | 0 <= k < |deps|
        ensures deps[k] in r.1 || Settles(r.0.units[deps[k]].state)
      {
        if k == 0 {
          if deps[0] in aw1 {
            assert aw1 <= r.1;
          }
        } else {
          assert deps[k] == deps[1..][k - 1];
        }
      }
    }
  }

  /** Waiting on the Promise.All over the dependencies found loading. */
  lemma AwaitValid(s: RMState, u: nat, assetPath: string, aw: seq<nat>)
    requires Valid(s) && u < |s.units| && s.units[u].chain.AwaitMain? && AwaitedStarted(s, aw)
    requires DepsBounded(s, u)
    requires forall k :: 0 <= k < |s.units[u].dependencies| ==>
      s.units[u].dependencies[k] in aw || Settles(s.units[s.units[u].dependencies[k]].state)
    ensures Valid(SetChain(s, u, AwaitDeps(assetPath, aw))) && Grows(s, SetChain(s, u, AwaitDeps(assetPath, aw)))
  {
    var s' := SetChain(s, u, AwaitDeps(assetPath, aw));
    assert UnitOk(s, u);
    forall i | 0 <= i < |s'.units|
      ensures UnitOk(s', i)
    {
      if i != u {
        UnitOkStable(s, s', i);
      }
    }
  }

  /** The main chain after the listing: fail, finish, or wait on the dependencies. */
  lemma MainContinueValid(s2: RMState, u: nat, a: string, mainAB: Ref)
    requires Valid(s2) && u < |s2.units| && s2.units[u].chain.AwaitMain? && DepsBounded(s2, u)
    ensures Valid(MainContinue(s2, u, a, mainAB)) && Grows(s2, MainContinue(s2, u, a, mainAB))
  {
    assert UnitOk(s2, u);
    if mainAB.Null? {
      FinishValid(s2, u, LoadFailed);
    } else {
      var deps := s2.units[u].dependencies;
      LoadDepsFromValid(s2, u, deps, a, []);
      var (s3, aw) := LoadDepsFrom(s2, deps, a, []);
      if aw == [] {
        FinishValid(s3, u, Loaded);
      } else {
        AwaitValid(s3, u, a, aw);
      }
    }
  }

  /** Storing the bundle and listing the dependencies keeps the invariant; the unit is still inside the same chain. */
  lemma ArriveAndFillValid(s: RMState, u: nat, b: Ref)
    requires Valid(s) && u < |s.units| && (s.units[u].chain.AwaitMain? || s.units[u].chain.AwaitDep?)
    ensures var s1 := s.(units := s.units[u := s.units[u].(bundle := b)]);
      u < |s1.units| && Registry(s1) && DepsBounded(s1, u) &&
      var s2 := Fill(s1, u, s.units[u].chain.assetPath).0;
      Valid(s2) && Grows(s, s2) && u < |s2.units| && s2.units[u].chain == s.units[u].chain &&
      s2.units[u].state == Loading && s2.units[u].bundle == b && DepsBounded(s2, u)
  {
    assert UnitOk(s, u);
    var s1 := s.(units := s.units[u := s.units[u].(bundle := b)]);
    SetBundleValid(s, u, b);
    assert UnitOk(s1, u);
    assert DepsBounded(s1, u);
    FillValid(s1, u, s.units[u].chain.assetPath);
    var s2 := Fill(s1, u, s.units[u].chain.assetPath).0;
    GrowsTrans(s, s1, s2);
    assert s2.units[u] == s1.units[u].(dependencies := s2.units[u].dependencies);
    assert UnitOk(s2, u);
    assert DepsBounded(s2, u);
  }

  /** The arrival of a bundle keeps the invariant. */
  lemma BundleArrivedValid(s: RMState, u: nat, b: Ref)
    requires Valid(s) && u < |s.units| && (s.units[u].chain.AwaitMain? || s.units[u].chain.AwaitDep?)
    requires DepsBounded(s, u)
    ensures Valid(BundleArrived(s, u, b)) && Grows(s, BundleArrived(s, u, b))
  {
    ArriveAndFillValid(s, u, b);
    var a := s.units[u].chain.assetPath;
    var s1 := s.(units := s.units[u := s.units[u].(bundle := b)]);
    var r := Fill(s1, u, a);
    if s.units[u].chain.AwaitMain? {
      MainContinueValid(r.0, u, a, if r.1 then Null else b);
    } else {
      FinishValid(r.0, u, if r.0.units[u].bundle.Ref? then Loaded else LoadFailed);
    }
  }

  /** The Promise.All of a main load completing keeps the invariant. */
  lemma DepsSettledValid(s: RMState, u: nat)
    requires Valid(s) && u < |s.units| && DepsReady(s, u)
    ensures Valid(DepsSettled(s, u)) && Grows(s, DepsSettled(s, u))
  {
    assert UnitOk(s, u);
    FinishValid(s, u, Loaded);
  }

  /** Dropping a finished asset load keeps the invariant. */
  lemma RemoveLoadValid(s: RMState, k: nat)
    requires Valid(s) && k < |s.assetLoads|
    ensures Valid(s.(assetLoads := s.assetLoads[..k] + s.assetLoads[k + 1..]))
  {
    var s' := s.(assetLoads := s.assetLoads[..k] + s.assetLoads[k + 1..]);
    forall i | 0 <= i < |s'.units|
      ensures UnitOk(s', i)
    {
      assert UnitOk(s, i);
    }
    assert LoadsOk(s') by {
      forall j | 0 <= j < |s'.assetLoads|
        ensures s'.assetLoads[j].unit < |s'.units|
      {
        if j < k {
          assert s'.assetLoads[j] == s.assetLoads[j];
        } else {
          assert s'.assetLoads[j] == s.assetLoads[j + 1];
        }
      }
    }
  }

  /** The arrival of an asset keeps the invariant. */
  lemma AssetArrivedValid(s: RMState, k: nat, asset: Ref)
    requires Valid(s) && k < |s.assetLoads| && s.assetLoads[k].unit < |s.units|
    ensures Valid(AssetArrived(s, k, asset)) && Grows(s, AssetArrived(s, k, asset))
  {
    var al := s.assetLoads[k];
    var s1 := s.(assetLoads := s.assetLoads[..k] + s.assetLoads[k + 1..]);
    RemoveLoadValid(s, k);
    if asset.Ref? {
      var s2 := AddLoadedAsset(s1, al.request.assetPath, asset.id);
      SameUnitsValid(s1, s2);
      SameUnitsValid(s2, AssetArrived(s, k, asset));
    } else {
      SameUnitsValid(s1, AssetArrived(s, k, asset));
    }
  }

  // ---------------------------------------------------------------- what the operations do

  /** The unit a bundle path has, or the one TryGetABUnit would create for it. */
  function UnitIndex(s: RMState, abPath: string): nat
  {
    if abPath in s.unitOf then s.unitOf[abPath] else |s.units|
  }

  /** The load state of that unit before the call (None for a unit yet to be created). */
  function PriorState(s: RMState, abPath: string): LoadState
    requires Registry(s)
  {
    if abPath in s.unitOf then s.units[s.unitOf[abPath]].state else None
  }

  /**
   * LoadAsync of an uncached asset whose bundle is known: from None the
   * bundle load is requested (the only way a request is made) and the
   * request waits on the new chain; while Loading it waits on LoadABPro; once
   * settled its extraction starts at once.
   */
  lemma LoadAsyncRequest(s: RMState, req: Request)
    requires Valid(s) && req.assetPath != "" && ModelOf(s, req.assetPath).Model?
    requires req.assetPath !in s.loadedAssets
    ensures var m := ModelOf(s, req.assetPath).m;
      var u := UnitIndex(s, m.abPath);
      var s' := LoadAsync(s, req).0;
      u < |s'.units| && s'.units[u].model.abPath == m.abPath &&
      (PriorState(s, m.abPath) == None ==>
        s'.loadCalls == s.loadCalls + [m.abPath] && s'.units[u].state == Loading &&
        s'.units[u].pro == Waiting([req]) && s'.units[u].chain == AwaitMain(req.assetPath)) &&
      (PriorState(s, m.abPath) == Loading ==>
        s'.loadCalls == s.loadCalls && s'.units[u].state == Loading &&
        s'.units[u].pro.Waiting? && s'.units[u].pro.handlers == PendingHandlers(s.units[u].pro) + [req]) &&
      (Settles(PriorState(s, m.abPath)) ==>
        s'.loadCalls == s.loadCalls && s'.units == s.units &&
        s'.assetLoads == s.assetLoads + ExtractLoad(u, s.units[u].bundle, req))
  {
    var m := ModelOf(s, req.assetPath).m;
    GetUnitValid(s, m.abPath);
    var (s1, u) := GetUnit(s, m.abPath);
    assert LoadAsync(s, req).0 == InternalLoadAsset(s1, u, req);
    assert UnitOk(s1, u);
    InternalLoadAssetMeaning(s1, u, req);
  }

  /** The three cases of InternalLoadAssetAsync, by the unit's state. */
  lemma InternalLoadAssetMeaning(s: RMState, u: nat, req: Request)
    requires u < |s.units| && (s.units[u].state == Loading ==> !s.units[u].pro.Settled?)
    requires Settles(s.units[u].state) ==> s.units[u].pro.Settled?
    ensures var s' := InternalLoadAsset(s, u, req);
      (s.units[u].state == None ==>
        s'.loadCalls == s.loadCalls + [s.units[u].model.abPath] && s'.units[u].state == Loading &&
        s'.units[u].pro == Waiting([req]) && s'.units[u].chain == AwaitMain(req.assetPath)) &&
      (s.units[u].state == Loading ==>
        s'.loadCalls == s.loadCalls && s'.units[u].state == Loading &&
        s'.units[u].pro.Waiting? && s'.units[u].pro.handlers == PendingHandlers(s.units[u].pro) + [req]) &&
      (Settles(s.units[u].state) ==>
        s'.loadCalls == s.loadCalls && s'.units == s.units &&
        s'.assetLoads == s.assetLoads + ExtractLoad(u, s.units[u].bundle, req))
  {
  }

  /** The handlers a LoadABPro in this state holds. */
  function PendingHandlers(p: ProState): seq<Request>
  {
    if p.Waiting? then p.handlers else []
  }

  /** Two LoadAsync calls for assets of the same bundle request that bundle at most once between them. */
  lemma LoadAsyncTwiceRequestsOnce(s: RMState, r1: Request, r2: Request)
    requires Valid(s) && r1.assetPath != "" && r2.assetPath != ""
    requires ModelOf(s, r1.assetPath).Model? && ModelOf(s, r2.assetPath).Model?
    requires ModelOf(s, r1.assetPath).m.abPath == ModelOf(s, r2.assetPath).m.abPath
    ensures var abPath := ModelOf(s, r1.assetPath).m.abPath;
      var s2 := LoadAsync(LoadAsync(s, r1).0, r2).0;
      s2.loadCalls == s.loadCalls || s2.loadCalls == s.loadCalls + [abPath]
  {
    var abPath := ModelOf(s, r1.assetPath).m.abPath;
    var s1 := LoadAsync(s, r1).0;
    LoadAsyncValid(s, r1);
    LoadAsyncCalls(s, r1);
    assert ModelOf(s1, r2.assetPath) == ModelOf(s, r2.assetPath);
    LoadAsyncCalls(s1, r2);
    var s2 := LoadAsync(s1, r2).0;
    if s1.loadCalls != s.loadCalls {
      assert s1.loadCalls == s.loadCalls + [abPath];
      assert abPath in s1.unitOf && s1.units[s1.unitOf[abPath]].state != None by {
        assert abPath in s1.loadCalls;
        assert abPath in s1.unitOf;
        assert Injective(s1);
      }
      assert PriorState(s1, abPath) != None;
    }
  }

  /**
   * LoadAsync requests nothing but, when the unit was still None, the
   * bundle of the asset's model; it never changes the tables.
   */
  lemma LoadAsyncCalls(s: RMState, req: Request)
    requires Valid(s)
    ensures var s' := LoadAsync(s, req).0;
      s'.models == s.models && s'.hash2Index == s.hash2Index && s'.ready == s.ready &&
      (s'.loadCalls == s.loadCalls ||
        (req.assetPath != "" && ModelOf(s, req.assetPath).Model? &&
         PriorState(s, ModelOf(s, req.assetPath).m.abPath) == None &&
         s'.loadCalls == s.loadCalls + [ModelOf(s, req.assetPath).m.abPath]))
  {
    if req.assetPath != "" && ModelOf(s, req.assetPath).Model? {
      var m := ModelOf(s, req.assetPath).m;
      var (s1, u) := GetUnit(s, m.abPath);
      assert LoadAsync(s, req).0 == LoadAssetAsync(s1, u, req);
      if req.assetPath in s.loadedAssets {
        assert LoadAssetAsync(s1, u, req).loadCalls == s1.loadCalls == s.loadCalls;
      } else {
        LoadAsyncRequest(s, req);
      }
    }
  }

  /**
   * A cached asset is served at once: the callback gets the asset (or an
   * instance of it), no unit changes state and nothing is requested.
   */
  lemma LoadAsyncCacheHit(s: RMState, req: Request)
    requires Valid(s) && req.assetPath != "" && ModelOf(s, req.assetPath).Model?
    requires req.assetPath in s.loadedAssets && !req.isScene
    ensures var s' := LoadAsync(s, req).0;
      var obj := Served(s.loadedAssets[req.assetPath], req.instantiate);
      s'.loadCalls == s.loadCalls && s'.assetLoads == s.assetLoads &&
      s'.units[..|s.units|] == s.units &&
      s'.delivered == s.delivered + (if req.onLoaded.Ref? then [Delivery(req.onLoaded.id, obj)] else [])
  {
    var m := ModelOf(s, req.assetPath).m;
    GetUnitValid(s, m.abPath);
  }

  /** InternaleOnABLoaded with the state the unit already has does nothing. */
  lemma OnABLoadedSameState(s: RMState, u: nat)
    requires u < |s.units|
    ensures OnABLoaded(s, u, s.units[u].state) == s
  {
  }

  /**
   * InternaleOnABLoaded with a new state stores it, resolves LoadABPro, and
   * starts the extraction of every waiting request once, in the order they
   * were registered; no other unit changes.
   */
  lemma OnABLoadedRunsHandlers(s: RMState, u: nat, st: LoadState)
    requires u < |s.units| && s.units[u].state != st
    ensures var s' := OnABLoaded(s, u, st);
      s'.units == s.units[u := s.units[u].(state := st, pro := Settled)] &&
      s'.assetLoads == s.assetLoads + ExtractLoads(u, s.units[u].bundle, PendingHandlers(s.units[u].pro)) &&
      s'.loadCalls == s.loadCalls && s'.delivered == s.delivered
  {
    var un := s.units[u];
    ExtractAllMeaning(s.(units := s.units[u := un.(state := st, pro := Settled)]), u, PendingHandlers(un.pro));
  }

  /**
   * A main bundle turns Loaded only once every dependency it lists has
   * settled: the Promise.All waits for exactly the ones that had not.
   */
  lemma DepsSettledAfterDeps(s: RMState, u: nat)
    requires Valid(s) && u < |s.units| && DepsReady(s, u)
    ensures var s' := DepsSettled(s, u);
      s'.units[u].state == Loaded &&
      forall k :: 0 <= k < |s.units[u].dependencies| ==>
        s.units[u].dependencies[k] < |s'.units| && Settles(s'.units[s.units[u].dependencies[k]].state)
  {
    assert UnitOk(s, u);
    var un := s.units[u];
    FinishUnfold(s, u, Loaded);
    var s1 := s.(units := s.units[u := un.(state := Loaded, pro := Settled, chain := Done)]);
    ExtractAllMeaning(s1, u, PendingHandlers(un.pro));
    forall k | 0 <= k < |un.dependencies|
      ensures un.dependencies[k] < |s.units| && Settles(s.units[un.dependencies[k]].state)
    {
      var d := un.dependencies[k];
      if d in un.chain.awaited {
        var j :| 0 <= j < |un.chain.awaited| && un.chain.awaited[j] == d;
        assert s.units[d].state != None && s.units[d].state != Loading;
      }
    }
  }

  /**
   * The arrival of an asset: a loaded asset is cached under the request's
   * path and handed to the callback; a missing one hands over the unit's
   * bundle instead.
   */
  lemma AssetArrivedMeaning(s: RMState, k: nat, asset: Ref)
    requires k < |s.assetLoads| && s.assetLoads[k].unit < |s.units|
    ensures var al := s.assetLoads[k];
      var s' := AssetArrived(s, k, asset);
      var obj := if asset.Ref? then Served(asset.id, al.request.instantiate) else BundleObj(s.units[al.unit].bundle);
      |s'.assetLoads| == |s.assetLoads| - 1 && s'.units == s.units && s'.loadCalls == s.loadCalls &&
      (asset.Ref? ==> CachedAsset(s', al.request.assetPath) == Cached(asset.id)) &&
      (asset.Null? ==> s'.loadedAssets == s.loadedAssets) &&
      s'.delivered == s.delivered + (if al.request.onLoaded.Ref? then [Delivery(al.request.onLoaded.id, obj)] else [])
  {
  }

  /** Every entry of `a` is in `b` with the same value. */
  predicate MapGrows(a: map<string, nat>, b: map<string, nat>)
  {
    forall p :: p in a ==> p in b && b[p] == a[p]
  }

  /** Every model of the list other than the unit's own has its unit in `ds`. */
  predicate ListedIn(unitOf: map<string, nat>, list: seq<ABUnitModel>, own: string, ds: seq<nat>)
  {
    forall j :: 0 <= j < |list| && list[j].abPath != own ==> list[j].abPath in unitOf && unitOf[list[j].abPath] in ds
  }

  /** Every entry of `ds` was already in `base` or is the unit of a model of the list. */
  predicate FromList(unitOf: map<string, nat>, list: seq<ABUnitModel>, ds: seq<nat>, base: seq<nat>)
  {
    forall k :: 0 <= k < |ds| ==>
      (ds[k] in base || exists j :: 0 <= j < |list| && list[j].abPath in unitOf && ds[k] == unitOf[list[j].abPath])
  }

  /** One turn of the listing: the model's unit ends up listed unless it is the unit itself; nothing else is added. */
  lemma FillOneMeaning(s: RMState, u: nat, m: ABUnitModel)
    requires Registry(s) && u < |s.units|
    ensures var s' := FillOne(s, u, m);
      var ds := s.units[u].dependencies;
      var ds' := s'.units[u].dependencies;
      s'.units[u].model == s.units[u].model && ds <= ds' && MapGrows(s.unitOf, s'.unitOf) &&
      (m.abPath != s.units[u].model.abPath ==> m.abPath in s'.unitOf && s'.unitOf[m.abPath] in ds') &&
      (forall k :: 0 <= k < |ds'| ==> ds'[k] in ds || (m.abPath in s'.unitOf && ds'[k] == s'.unitOf[m.abPath]))
  {
    if m.abPath != s.units[u].model.abPath {
      var (s1, d) := GetUnit(s, m.abPath);
      GetUnitKeeps(s, m.abPath, u);
      var ds := s1.units[u].dependencies;
      if d !in ds {
        var s' := s1.(units := s1.units[u := s1.units[u].(dependencies := ds + [d])]);
        assert FillOne(s, u, m) == s';
        assert s'.units[u].dependencies == ds + [d];
        assert (ds + [d])[|ds|] == d;
        forall k | 0 <= k < |ds + [d]| ensures (ds + [d])[k] in ds || (ds + [d])[k] == d {
          if k < |ds| { assert (ds + [d])[k] == ds[k]; }
        }
      } else {
        assert FillOne(s, u, m) == s1;
      }
    }
  }

  lemma GetUnitKeeps(s: RMState, abPath: string, u: nat)
    requires Registry(s) && u < |s.units|
    ensures var r := GetUnit(s, abPath); r.0.units[u] == s.units[u] && MapGrows(s.unitOf, r.0.unitOf)
  {
    if abPath !in s.unitOf {
      var s1 := s.(units := s.units + [NewUnit(abPath)], unitOf := s.unitOf[abPath := |s.units|]);
      assert s1.units[u] == s.units[u];
    }
  }

  lemma ListedCons(unitOf1: map<string, nat>, unitOf': map<string, nat>, list: seq<ABUnitModel>, own: string,
                   ds1: seq<nat>, ds': seq<nat>)
    requires list != [] && ListedIn(unitOf', list[1..], own, ds') && MapGrows(unitOf1, unitOf') && ds1 <= ds'
    requires list[0].abPath != own ==> list[0].abPath in unitOf1 && unitOf1[list[0].abPath] in ds1
    ensures ListedIn(unitOf', list, own, ds')
  {
    forall j | 0 <= j < |list| && list[j].abPath != own
      ensures list[j].abPath in unitOf' && unitOf'[list[j].abPath] in ds'
    {
      if j > 0 {
        assert list[j] == list[1..][j - 1];
      }
    }
  }

  lemma FromCons(unitOf1: map<string, nat>, unitOf': map<string, nat>, list: seq<ABUnitModel>,
                 ds: seq<nat>, ds1: seq<nat>, ds': seq<nat>)
    requires list != [] && FromList(unitOf', list[1..], ds', ds1) && MapGrows(unitOf1, unitOf')
    requires forall k :: 0 <= k < |ds1| ==> ds1[k] in ds || (list[0].abPath in unitOf1 && ds1[k] == unitOf1[list[0].abPath])
    ensures FromList(unitOf', list, ds', ds)
  {
    forall k | 0 <= k < |ds'| && ds'[k] !in ds
      ensures exists j :: 0 <= j < |list| && list[j].abPath in unitOf' && ds'[k] == unitOf'[list[j].abPath]
    {
      if ds'[k] !in ds1 {
        var j :| 0 <= j < |list[1..]| && list[1..][j].abPath in unitOf' && ds'[k] == unitOf'[list[1..][j].abPath];
        assert list[j + 1] == list[1..][j];
      } else {
        assert list[0].abPath in unitOf1 && ds'[k] == unitOf1[list[0].abPath];
      }
    }
  }

  /**
   * GetDependenciesABUnitAsync's loop lists exactly the units of the models
   * given, apart from the unit itself, after what was already listed.
   */
  lemma {:induction false} FillFromMeaning(s: RMState, u: nat, list: seq<ABUnitModel>)
    requires Registry(s) && u < |s.units|
    ensures var s' := FillFrom(s, u, list);
      var ds := s.units[u].dependencies;
      var ds' := s'.units[u].dependencies;
      s'.units[u].model == s.units[u].model && ds <= ds' && MapGrows(s.unitOf, s'.unitOf) &&
      ListedIn(s'.unitOf, list, s.units[u].model.abPath, ds') && FromList(s'.unitOf, list, ds', ds)
    decreases |list|
  {
    if list != [] {
      var s1 := FillOne(s, u, list[0]);
      FillOneMeaning(s, u, list[0]);
      FillFromMeaning(s1, u, list[1..]);
      var s' := FillFrom(s1, u, list[1..]);
      assert s' == FillFrom(s, u, list);
      ListedCons(s1.unitOf, s'.unitOf, list, s.units[u].model.abPath, s1.units[u].dependencies, s'.units[u].dependencies);
      FromCons(s1.unitOf, s'.unitOf, list, s.units[u].dependencies, s1.units[u].dependencies, s'.units[u].dependencies);
      MapGrowsTrans(s.unitOf, s1.unitOf, s'.unitOf);
    }
  }

  lemma MapGrowsTrans(a: map<string, nat>, b: map<string, nat>, c: map<string, nat>)
    requires MapGrows(a, b) && MapGrows(b, c)
    ensures MapGrows(a, c)
  {
  }

  /**
   * The first arrival of a main bundle lists as dependencies exactly the
   * bundles of GetAllDependencies(assetPath) other than its own, each once.
   */
  lemma FillMeaning(s: RMState, u: nat, assetPath: string)
    requires Valid(s) && u < |s.units| && s.units[u].state == Loading && !s.units[u].chain.AwaitDeps?
    requires s.units[u].bundle.Ref? && s.units[u].dependencies == [] && AllDependencies(s, assetPath).Deps?
    ensures var s' := Fill(s, u, assetPath).0;
      var list := AllDependencies(s, assetPath).list;
      var ds := s'.units[u].dependencies;
      !Fill(s, u, assetPath).1 && NoDup(ds) && u !in ds &&
      ListedIn(s'.unitOf, list, s.units[u].model.abPath, ds) && FromList(s'.unitOf, list, ds, [])
  {
    var list := AllDependencies(s, assetPath).list;
    FillFromMeaning(s, u, list);
    FillValid(s, u, assetPath);
    var s' := Fill(s, u, assetPath).0;
    assert UnitOk(s', u);
  }

  // ---------------------------------------------------------------- the dependency map

  /**
   * ParseDependenciesMap. A missing file changes nothing. A file without a
   * leading count throws before the tables exist; so does a negative count
   * while the tables are still to be created (the capacity given to the
   * Dictionary). Otherwise the tables exist from then on and the entries read
   * before any failure are kept. `ok` says the whole file was read.
   */
  function ParseMap(s: RMState, fileExists: bool, toks: seq<Token>): (r: (RMState, bool))
    ensures r.0.units == s.units && r.0.unitOf == s.unitOf && r.0.loadedAssets == s.loadedAssets
    ensures r.0.loadCalls == s.loadCalls && r.0.assetLoads == s.assetLoads && r.0.delivered == s.delivered
    ensures r.1 ==> r.0.ready
    ensures s.ready ==> r.0.ready && s.models <= r.0.models && s.hash2Index.Keys <= r.0.hash2Index.Keys
    ensures !fileExists ==> r == (s, false)
  {
    if !fileExists || toks == [] || !toks[0].IntTok? then (s, false)
    else if !s.ready && toks[0].i < 0 then (s, false)
    else
      var p := if s.ready then Parse(toks, s.models, s.hash2Index) else Parse(toks, [], map[]);
      (s.(ready := true, models := p.models, hash2Index := p.hash2Index), p.ok)
  }

  /** Reading the tables touches nothing the invariant speaks of. */
  lemma ParseMapValid(s: RMState, fileExists: bool, toks: seq<Token>)
    requires Valid(s)
    ensures Valid(ParseMap(s, fileExists, toks).0)
  {
    var s' := ParseMap(s, fileExists, toks).0;
    forall i | 0 <= i < |s.units|
      ensures UnitOk(s', i)
    {
      assert UnitOk(s, i);
    }
  }

  /** The state after the manager read the file the editor wrote for `f`. */
  function AfterParse(f: MapFile): RMState
  {
    Initial().(ready := true, models := ModelsOf(f.bundles), hash2Index := FirstWins(f.assets, map[]))
  }

  /** A fresh manager reading an encoded file reads all of it and holds exactly what was written. */
  lemma ParseEncoded(f: MapFile)
    requires Fits(f)
    ensures ParseMap(Initial(), true, Encode(f)) == (AfterParse(f), true)
  {
    RoundTrip(f);
    var toks := Encode(f);
    assert toks[0] == IntTok(|f.bundles|);
  }

  /**
   * After that, GetModel finds, for an asset the file lists, the bundle of its
   * first entry; for an asset it does not list, nothing.
   */
  lemma LookupAfterParse(f: MapFile, assetPath: string, i: nat)
    requires FirstWith(f.assets, KeyOf(assetPath), i) && 0 <= f.assets[i].index < |f.bundles|
    ensures var b := f.bundles[f.assets[i].index];
      ModelOf(AfterParse(f), assetPath) == Model(ParsedModel(b.abPath, b.depIndexs))
  {
    FirstWinsMeaning(f.assets, map[], KeyOf(assetPath));
  }

  lemma LookupMissingAfterParse(f: MapFile, assetPath: string)
    requires forall i :: 0 <= i < |f.assets| ==> f.assets[i].hash != KeyOf(assetPath)
    ensures ModelOf(AfterParse(f), assetPath) == NoModel
  {
    FirstWinsMeaning(f.assets, map[], KeyOf(assetPath));
  }
}
