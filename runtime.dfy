/**
 * The RM singleton as an object whose tables its methods fill in place.
 *
 * Every method is proved against the specification in LoaderSpec: its
 * `ensures` says the new state (and result) is the specification function of
 * the old state, and `Valid()` (LoaderSpec.Valid of the state) is kept. The
 * properties of those functions are the lemmas of LoaderSpec.
 *
 * The ABUnit objects live in the `units` sequence, addressed by index; the
 * environment's side of the asynchronous loads is recorded in `loadCalls`,
 * `assetLoads` and `delivered`, and its completions are the event methods
 * BundleArrived, DepsSettled and AssetArrived.
 */
module Runtime {
  import opened Utility
  import opened BundleModel
  import opened DependencyMap
  import opened LoaderSpec

  /**
   * One bundle entry of the dependency map, read from the front of `input`:
   * the path and the dependency count, then the indices. `rest` is what
   * follows the entry; `n` is the number of entries still to read, for the
   * statement about them.
   */
  method ReadModel(input: seq<Token>, ghost n: int) returns (model: ABUnitModel, rest: seq<Token>, ok: bool)
    requires n > 0
    ensures var r := ReadBundles(input, n);
      if ok then
        var t := ReadBundles(rest, n - 1);
        r == Bundles([model] + t.models, t.rest, t.ok)
      else !r.ok && r.models == []
  {
    model, rest := NewABUnitModel("", ""), input;
    if input == [] || !input[0].StrTok? {
      return model, rest, false;
    }
    if |input| < 2 || !input[1].IntTok? {
      return model, rest, false;
    }
    model, rest, ok := ReadIndices(input[0].s, input[2..], input[1].i);
  }

  /**
   * The inner loop of an entry: `new ABUnitModel("", abPath)` given the
   * `count` indices that follow, one AddDependenciesIndex each.
   */
  method ReadIndices(abPath: string, input: seq<Token>, count: int32) returns (model: ABUnitModel, rest: seq<Token>, ok: bool)
    ensures var d := ReadInts(input, count);
      ok == d.ok && (ok ==> model == ParsedModel(abPath, d.vals) && rest == d.rest)
  {
    model, rest := NewABUnitModel("", abPath), input;
    ghost var d := ReadInts(input, count);
    ghost var deps: seq<int32> := [];
    var j := 0;
    while j < count
      invariant 0 <= j && (count < 0 ==> j == 0) && (count >= 0 ==> j <= count)
      invariant model == ParsedModel(abPath, deps)
      invariant var r := ReadInts(rest, count - j);
        d == Ints(deps + r.vals, r.rest, r.ok)
    {
      if rest == [] || !rest[0].IntTok? {
        return model, rest, false;
      }
      model := model.AddDependenciesIndex(rest[0].i);
      deps := deps + [rest[0].i];
      rest := rest[1..];
      j := j + 1;
    }
    assert d == Ints(deps, rest, true);
    return model, rest, true;
  }

  class RM {
    /** hash2IndexDic and abUnitModelList exist. */
    var ready: bool
    var abUnitModelList: seq<ABUnitModel>
    var hash2IndexDic: map<uint32, int32>
    /** The ABUnit objects, by index. */
    var units: seq<Unit>
    var abUnitsDic: map<string, nat>
    var loadedAssetUnitDic: map<string, nat>
    /** Bundle loads requested from the environment, in order. */
    var loadCalls: seq<string>
    /** Asset loads started and not yet completed. */
    var assetLoads: seq<AssetLoad>
    /** Callbacks invoked, in order. */
    var delivered: seq<Delivery>

    function State(): RMState
      reads this
    {
      RMState(ready, abUnitModelList, hash2IndexDic, units, abUnitsDic, loadedAssetUnitDic,
              loadCalls, assetLoads, delivered)
    }

    /** Everything but the two tables the dependency map fills. */
    function Others(): (bool, seq<Unit>, map<string, nat>, map<string, nat>, seq<string>, seq<AssetLoad>, seq<Delivery>)
      reads this
    {
      (ready, units, abUnitsDic, loadedAssetUnitDic, loadCalls, assetLoads, delivered)
    }

    ghost predicate Valid()
      reads this
    {
      LoaderSpec.Valid(State())
    }

    constructor()
      ensures State() == Initial() && Valid()
    {
      ready, abUnitModelList, hash2IndexDic := false, [], map[];
      units, abUnitsDic, loadedAssetUnitDic := [], map[], map[];
      loadCalls, assetLoads, delivered := [], [], [];
      InitialValid();
    }

    // ------------------------------------------------------------ the dependency map

    /**
     * ParseDependenciesMap over the file's tokens (`fileExists` is File.Exists).
     * A read that fails stops the method and keeps what was stored before it;
     * `ok` says the whole file was read.
     */
    method ParseDependenciesMap(fileExists: bool, toks: seq<Token>) returns (ok: bool)
      requires Valid()
      modifies this
      ensures (State(), ok) == ParseMap(old(State()), fileExists, toks) && Valid()
    {
      ParseMapValid(State(), fileExists, toks);
      if !fileExists || toks == [] || !toks[0].IntTok? {
        return false;
      }
      var count := toks[0].i;
      if !ready {
        if count < 0 {
          return false;
        }
        ready, abUnitModelList, hash2IndexDic := true, [], map[];
      }
      var rest;
      rest, ok := ReadModels(toks[1..], count);
      if !ok {
        return false;
      }
      if rest == [] || !rest[0].IntTok? {
        return false;
      }
      ok := ReadAssetTable(rest[1..], rest[0].i);
    }

    /** The bundle loop of ParseDependenciesMap: `count` entries from the front of `input`, each model added once read. */
    method ReadModels(input: seq<Token>, count: int32) returns (rest: seq<Token>, ok: bool)
      modifies this
      ensures var b := ReadBundles(input, count);
        abUnitModelList == old(abUnitModelList) + b.models && hash2IndexDic == old(hash2IndexDic) &&
        Others() == old(Others()) && ok == b.ok && (ok ==> rest == b.rest)
    {
      ghost var b := ReadBundles(input, count);
      ghost var read: seq<ABUnitModel> := [];
      ghost var left, r := count as int, b;
      rest := input;
      var i := 0;
      while i < count
        invariant 0 <= i && (count < 0 ==> i == 0) && (count >= 0 ==> i <= count) && left == count - i
        invariant abUnitModelList == old(abUnitModelList) + read && hash2IndexDic == old(hash2IndexDic)
        invariant Others() == old(Others())
        invariant r == ReadBundles(rest, left) && b == Bundles(read + r.models, r.rest, r.ok)
      {
        var model, next, entryOk := ReadModel(rest, left);
        if !entryOk {
          assert read + r.models == read;
          return rest, false;
        }
        ghost var t := ReadBundles(next, left - 1);
        Assoc(read, [model], t.models);
        abUnitModelList := abUnitModelList + [model];
        read, left, r := read + [model], left - 1, t;
        rest := next;
        i := i + 1;
      }
      assert r == Bundles([], rest, true);
      return rest, true;
    }

    /** The asset loop of ParseDependenciesMap: `length` (hash, index) pairs, the first index for a hash kept. */
    method ReadAssetTable(input: seq<Token>, length: int32) returns (ok: bool)
      modifies this
      ensures var a := ReadAssets(input, length, old(hash2IndexDic));
        hash2IndexDic == a.hash2Index && abUnitModelList == old(abUnitModelList) && Others() == old(Others()) &&
        ok == a.ok
    {
      ghost var a := ReadAssets(input, length, hash2IndexDic);
      var rest := input;
      var k := 0;
      while k < length
        invariant 0 <= k && (length < 0 ==> k == 0) && (length >= 0 ==> k <= length)
        invariant abUnitModelList == old(abUnitModelList) && Others() == old(Others())
        invariant ReadAssets(rest, length - k, hash2IndexDic) == a
      {
        if rest == [] || !rest[0].IntTok? {
          return false;
        }
        var assetPathHash := rest[0].i;
        if |rest| < 2 || !rest[1].IntTok? {
          return false;
        }
        var modelIndex := rest[1].i;
        if Wrap(assetPathHash) !in hash2IndexDic {
          hash2IndexDic := hash2IndexDic[Wrap(assetPathHash) := modelIndex];
        }
        rest := rest[2..];
        k := k + 1;
      }
      return true;
    }

    // ------------------------------------------------------------ lookups

    /** GetModelByIndex. */
    method GetModelByIndex(index: int) returns (r: ModelLookup)
      ensures r == ModelByIndex(State(), index)
    {
      if !ready {
        return Throws;
      }
      if index < |abUnitModelList| {
        if index < 0 {
          return Throws;
        }
        return Model(abUnitModelList[index]);
      }
      return NoModel;
    }

    /** GetModel. */
    method GetModel(assetPath: string) returns (r: ModelLookup)
      ensures r == ModelOf(State(), assetPath)
    {
      var hash := CustomStringHashIgnoreCase(assetPath);
      if !ready {
        return Throws;
      }
      if hash !in hash2IndexDic {
        return NoModel;
      }
      r := GetModelByIndex(hash2IndexDic[hash]);
    }

    /** GetAllDependencies: the main model, then the in-range dependency models in index order. */
    method GetAllDependencies(assetPath: string) returns (r: DepsLookup)
      ensures r == AllDependencies(State(), assetPath)
    {
      var main := GetModel(assetPath);
      if main.Throws? {
        return DepsThrow;
      } else if main.NoModel? {
        return Deps([]);
      }
      var ds := main.m.depIndexs;
      var found: seq<ABUnitModel> := [];
      var i := 0;
      while i < |ds|
        invariant 0 <= i <= |ds| && ready
        invariant var rest := CollectDeps(State(), ds[i..]);
          CollectDeps(State(), ds) == if rest.DepsThrow? then DepsThrow else Deps(found + rest.list)
      {
        assert ds[i..][1..] == ds[i + 1..];
        var m := GetModelByIndex(ds[i]);
        if m.Throws? {
          return DepsThrow;
        } else if m.Model? {
          var rest := CollectDeps(State(), ds[i + 1..]);
          if rest.Deps? {
            Assoc(found, [m.m], rest.list);
          }
          found := found + [m.m];
        }
        i := i + 1;
      }
      assert ds[i..] == [];
      return Deps([main.m] + found);
    }

    // ------------------------------------------------------------ registry and cache

    /** TryGetABUnit. */
    method TryGetABUnit(abPath: string) returns (u: nat)
      requires Registry(State())
      modifies this
      ensures (State(), u) == GetUnit(old(State()), abPath)
      ensures old(Valid()) ==> Valid()
    {
      if Valid() {
        GetUnitValid(State(), abPath);
      }
      if abPath in abUnitsDic {
        u := abUnitsDic[abPath];
      } else {
        u := |units|;
        units := units + [NewUnit(abPath)];
        abUnitsDic := abUnitsDic[abPath := u];
      }
    }

    /** TryGetAssetUnit. */
    method TryGetAssetUnit(assetPath: string) returns (r: Cached)
      ensures r == CachedAsset(State(), assetPath)
    {
      if assetPath in loadedAssetUnitDic {
        return Cached(loadedAssetUnitDic[assetPath]);
      }
      return NotCached;
    }

    /** AddLoadedAsset: insert or replace. */
    method AddLoadedAsset(assetPath: string, asset: nat)
      requires Valid()
      modifies this
      ensures State() == LoaderSpec.AddLoadedAsset(old(State()), assetPath, asset) && Valid()
    {
      loadedAssetUnitDic := loadedAssetUnitDic[assetPath := asset];
      SameUnitsValid(old(State()), State());
    }
  
    // ------------------------------------------------------------ callbacks and extraction

    /** Calls the user callback unless it is null. */
    method Deliver(onLoaded: Ref, obj: Obj)
      modifies this
      ensures State() == LoaderSpec.Deliver(old(State()), onLoaded, obj)
    {
      if onLoaded.Ref? {
        delivered := delivered + [Delivery(onLoaded.id, obj)];
      }
    }

    /** ExtractAssetFromAB: start the asset load for a non-empty name from a loaded bundle, except for a Scene. */
    method ExtractAssetFromAB(u: nat, req: Request)
      requires u < |units|
      modifies this
      ensures State() == LoaderSpec.Extract(old(State()), u, req)
    {
      var name := AssetNameOf(req.assetPath);
      var bundle := units[u].bundle;
      if name != "" && bundle.Ref? && !req.isScene {
        assetLoads := assetLoads + [AssetLoad(u, bundle.id, name, req)];
      }
    }

    /** Resolving LoadABPro: every registered handler runs, in registration order. */
    method RunHandlers(u: nat, hs: seq<Request>)
      requires u < |units|
      modifies this
      ensures State() == ExtractAll(old(State()), u, hs)
    {
      var i := 0;
      while i < |hs|
        invariant 0 <= i <= |hs| && u < |units|
        invariant ExtractAll(State(), u, hs[i..]) == ExtractAll(old(State()), u, hs)
      {
        assert hs[i..][1..] == hs[i + 1..];
        ExtractAssetFromAB(u, hs[i]);
        i := i + 1;
      }
      assert hs[i..] == [];
    }

    /** InternaleOnABLoaded: a new state is stored and resolves LoadABPro; the same state again does nothing. */
    method OnABLoaded(u: nat, st: LoadState)
      requires u < |units|
      modifies this
      ensures State() == LoaderSpec.OnABLoaded(old(State()), u, st)
    {
      var un := units[u];
      if un.state != st {
        var hs := if un.pro.Waiting? then un.pro.handlers else [];
        units := units[u := un.(state := st, pro := Settled)];
        RunHandlers(u, hs);
      }
    }

    /** Replaces the unit's chain: the step of the load chain it is waiting at. */
    method SetChain(u: nat, c: Chain)
      requires u < |units|
      modifies this
      ensures State() == LoaderSpec.SetChain(old(State()), u, c)
    {
      units := units[u := units[u].(chain := c)];
    }

    // ------------------------------------------------------------ starting loads

    /** `LoadABPro.Then(_ => ExtractAssetFromAB(...))`. */
    method Then(u: nat, req: Request)
      requires u < |units|
      modifies this
      ensures State() == LoaderSpec.Then(old(State()), u, req)
    {
      var un := units[u];
      match un.pro
      case NoPromise =>
        units := units[u := un.(pro := Waiting([req]))];
      case Waiting(hs) =>
        units := units[u := un.(pro := Waiting(hs + [req]))];
      case Settled =>
        ExtractAssetFromAB(u, req);
    }

    /** InternalLoadAssetAsync: from None, start the main chain; then wait on LoadABPro. */
    method InternalLoadAssetAsync(u: nat, req: Request)
      requires u < |units|
      modifies this
      ensures State() == LoaderSpec.InternalLoadAsset(old(State()), u, req)
    {
      if units[u].state == None {
        var un := units[u];
        units := units[u := un.(state := Loading, pro := Waiting([]), chain := AwaitMain(req.assetPath))];
        loadCalls := loadCalls + [un.model.abPath];
      }
      Then(u, req);
    }

    /** ABUnit.LoadAssetAsync: a cached asset is served at once; otherwise through the bundle. */
    method LoadAssetAsync(u: nat, req: Request)
      requires u < |units|
      modifies this
      ensures State() == LoaderSpec.LoadAssetAsync(old(State()), u, req)
    {
      var cached := TryGetAssetUnit(req.assetPath);
      match cached
      case Cached(a) =>
        if !req.isScene {
          Deliver(req.onLoaded, Served(a, req.instantiate));
        }
      case NotCached =>
        InternalLoadAssetAsync(u, req);
    }

    /** RM.LoadAsync; `thrown` is the exception GetModel raises on a negative table index. */
    method LoadAsync(req: Request) returns (thrown: bool)
      requires Valid()
      modifies this
      ensures (State(), thrown) == LoaderSpec.LoadAsync(old(State()), req) && Valid()
    {
      LoadAsyncValid(State(), req);
      if req.assetPath == "" {
        return false;
      }
      var model := GetModel(req.assetPath);
      match model
      case Throws =>
        return true;
      case NoModel =>
        return false;
      case Model(m) =>
        var u := TryGetABUnit(m.abPath);
        LoadAssetAsync(u, req);
        return false;
    }
  
    // ------------------------------------------------------------ dependencies

    /**
     * GetDependenciesABUnitAsync: with the bundle loaded and no dependencies
     * yet, list the unit of every model GetAllDependencies returns, except the
     * unit itself and units already listed. `thrown` is GetAllDependencies'
     * exception.
     */
    method GetDependenciesABUnitAsync(u: nat, assetPath: string) returns (thrown: bool)
      requires u < |units| && Registry(State())
      modifies this
      ensures (State(), thrown) == Fill(old(State()), u, assetPath)
    {
      if units[u].bundle.Null? || units[u].dependencies != [] {
        return false;
      }
      var all := GetAllDependencies(assetPath);
      if all.DepsThrow? {
        return true;
      }
      var list := all.list;
      var i := 0;
      while i < |list|
        invariant 0 <= i <= |list| && u < |units| && Registry(State())
        invariant FillFrom(State(), u, list[i..]) == FillFrom(old(State()), u, list)
      {
        assert list[i..][1..] == list[i + 1..];
        AddDependency(u, list[i]);
        i := i + 1;
      }
      assert list[i..] == [];
      return false;
    }

    /** One turn of the listing loop: the model's unit, unless it is this unit or already listed. */
    method AddDependency(u: nat, m: ABUnitModel)
      requires u < |units| && Registry(State())
      modifies this
      ensures State() == FillOne(old(State()), u, m) && u < |units| && Registry(State())
    {
      if m.abPath != units[u].model.abPath {
        var d := TryGetABUnit(m.abPath);
        if d !in units[u].dependencies {
          units := units[u := units[u].(dependencies := units[u].dependencies + [d])];
        }
      }
    }

    /**
     * InternaleLoadDependenciesABAsync: skip settled dependencies, wait for
     * loading ones, and start the unloaded ones; returns the units waited for.
     */
    method LoadDependencies(u: nat, assetPath: string) returns (awaited: seq<nat>)
      requires u < |units| && DepsBounded(State(), u)
      modifies this
      ensures (State(), awaited) == LoadDepsFrom(old(State()), old(units[u].dependencies), assetPath, [])
    {
      var deps := units[u].dependencies;
      awaited := [];
      var i := 0;
      while i < |deps|
        invariant 0 <= i <= |deps| && |units| == old(|units|)
        invariant LoadDepsFrom(State(), deps[i..], assetPath, awaited) == LoadDepsFrom(old(State()), deps, assetPath, [])
      {
        assert deps[i..][1..] == deps[i + 1..];
        var d := deps[i];
        var dn := units[d];
        match dn.state {
          case Loaded =>
          case LoadFailed =>
          case Loading =>
            awaited := awaited + [d];
          case None =>
            units := units[d := dn.(state := Loading, chain := AwaitDep(assetPath))];
            loadCalls := loadCalls + [dn.model.abPath];
            awaited := awaited + [d];
        }
        i := i + 1;
      }
      assert deps[i..] == [];
    }

    // ------------------------------------------------------------ events

    /**
     * The bundle load of unit `u` completes with `bundle`: the rest of
     * InternalLoadMainAndDependenciesABAsync for a main load, of
     * InternaleLoadDependenciesABAsync for a dependency.
     */
    method BundleArrived(u: nat, bundle: Ref)
      requires Valid() && u < |units| && (units[u].chain.AwaitMain? || units[u].chain.AwaitDep?)
      requires DepsBounded(State(), u)
      modifies this
      ensures State() == LoaderSpec.BundleArrived(old(State()), u, bundle) && Valid()
    {
      BundleArrivedValid(State(), u, bundle);
      var main := units[u].chain.AwaitMain?;
      var a := units[u].chain.assetPath;
      var thrown := StoreBundle(u, bundle, a);
      if main {
        MainContinue(u, a, if thrown then Null else bundle);
      } else {
        SetChain(u, Done);
        OnABLoaded(u, if units[u].bundle.Ref? then Loaded else LoadFailed);
      }
    }

    /** Keeps the bundle that arrived, then lists the unit's dependencies. */
    method StoreBundle(u: nat, bundle: Ref, a: string) returns (thrown: bool)
      requires u < |units| && Registry(State()) && DepsBounded(State(), u)
      modifies this
      ensures var s1 := old(State()).(units := old(units)[u := old(units)[u].(bundle := bundle)]);
        (State(), thrown) == Fill(s1, u, a)
      ensures u < |units| && DepsBounded(State(), u)
    {
      units := units[u := units[u].(bundle := bundle)];
      assert Registry(State()) by {
        forall p | p in abUnitsDic
          ensures abUnitsDic[p] < |units| && units[abUnitsDic[p]].model.abPath == p
        {
          assert Registry(old(State()));
        }
      }
      assert DepsBounded(State(), u);
      thrown := GetDependenciesABUnitAsync(u, a);
    }

    /**
     * The end of the main chain, given the bundle the listing step passed on:
     * fail without one; otherwise load the dependencies, and finish at once
     * when none has to be waited for.
     */
    method MainContinue(u: nat, a: string, mainAB: Ref)
      requires u < |units| && DepsBounded(State(), u)
      modifies this
      ensures State() == LoaderSpec.MainContinue(old(State()), u, a, mainAB)
    {
      if mainAB.Null? {
        SetChain(u, Done);
        OnABLoaded(u, LoadFailed);
      } else {
        var aw := LoadDependencies(u, a);
        if aw == [] {
          SetChain(u, Done);
          OnABLoaded(u, Loaded);
        } else {
          SetChain(u, AwaitDeps(a, aw));
        }
      }
    }

    /** The Promise.All over the awaited dependencies resolves: InternaleOnABLoaded(this, Loaded). */
    method DepsSettled(u: nat)
      requires Valid() && u < |units| && DepsReady(State(), u)
      modifies this
      ensures State() == LoaderSpec.DepsSettled(old(State()), u) && Valid()
    {
      DepsSettledValid(State(), u);
      SetChain(u, Done);
      OnABLoaded(u, Loaded);
    }

    /** The asset load `k` completes: cache and serve the asset, or hand over the bundle when it is missing. */
    method AssetArrived(k: nat, asset: Ref)
      requires Valid() && k < |assetLoads| && assetLoads[k].unit < |units|
      modifies this
      ensures State() == LoaderSpec.AssetArrived(old(State()), k, asset) && Valid()
    {
      AssetArrivedValid(State(), k, asset);
      var al := assetLoads[k];
      assetLoads := assetLoads[..k] + assetLoads[k + 1..];
      if asset.Ref? {
        loadedAssetUnitDic := loadedAssetUnitDic[al.request.assetPath := asset.id];
        Deliver(al.request.onLoaded, Served(asset.id, al.request.instantiate));
      } else {
        Deliver(al.request.onLoaded, BundleObj(units[al.unit].bundle));
      }
    }
  }
}
