/**
 * The second half of the editor's build: `WriteABInfo2ByteFile`, which turns
 * the dependency scan (`GenerateAllABDependencies`) and `abDic` into the
 * dependency-map file the runtime reads.
 *
 * The file is produced in three passes, each a function here:
 *  - `DependenciesDic` is `abPathDependenciesDic`: for every bundle of `abDic`
 *    that some scanned asset lives in, the bundle paths of that asset's
 *    dependencies; only the first such asset of a bundle is used;
 *  - the bundle paths in that dictionary's order are `allABPathList`, and a
 *    path's position in it is its `abPath2IndexDic` entry;
 *  - `TempAssetList` is `tempAssetList`: every asset of `abDic`, each
 *    (bundle path, asset path) pair once.
 * A dictionary lookup of a missing key throws `KeyNotFoundException`; that is
 * the `KeyNotFound` result, carrying the missing key.
 */
module MapWriter {
  import opened Utility
  import opened BundleModel
  import opened DependencyMap
  import opened BundleEditor
  import LoaderSpec

  /** The outcome of a write: the value written, or the key whose lookup threw. */
  datatype Written<T> = Written(value: T) | KeyNotFound(key: string)

  /** Every path the dependency scan recorded has a directory part (else the bundle-path conversion throws). */
  predicate Slashed(dm: DepsMap)
  {
    forall k :: k in dm.sets ==> '/' in k && forall p :: p in dm.sets[k] ==> '/' in p
  }

  /** A dictionary in insertion order whose keys are listed once and whose lists have no repeats. */
  predicate DicOk(dic: DepsMap)
  {
    NoDup(dic.keys) && Elems(dic.keys) == dic.sets.Keys &&
    forall b :: b in dic.sets ==> NoDup(dic.sets[b])
  }

  // ---------------------------------------------------------------- first pass

  /** The inner loop of the first pass: each dependency's bundle path, once, in order. */
  function DepABPaths(acc: seq<string>, paths: seq<string>): (r: seq<string>)
    requires forall p :: p in paths ==> '/' in p
    decreases paths
  {
    if paths == [] then acc
    else
      var abPath := ConvertAssetPath2ABPath(paths[0]);
      DepABPaths(if abPath in acc then acc else acc + [abPath], paths[1..])
  }

  /** The bundle of asset path `p` is listed exactly when some dependency lives in it; nothing is listed twice. */
  lemma {:induction false} DepABPathsMeaning(acc: seq<string>, paths: seq<string>, x: string)
    requires forall p :: p in paths ==> '/' in p
    ensures NoDup(acc) ==> NoDup(DepABPaths(acc, paths))
    ensures x in DepABPaths(acc, paths) <==>
      x in acc || exists p :: p in paths && ConvertAssetPath2ABPath(p) == x
    decreases paths
  {
    if paths != [] {
      var abPath := ConvertAssetPath2ABPath(paths[0]);
      var acc1 := if abPath in acc then acc else acc + [abPath];
      if NoDup(acc) && abPath !in acc {
        NoDupAppend(acc, abPath);
      }
      DepABPathsMeaning(acc1, paths[1..], x);
      if x in acc || exists p :: p in paths && ConvertAssetPath2ABPath(p) == x {
        if x !in acc && x != abPath {
          var p :| p in paths && ConvertAssetPath2ABPath(p) == x;
          assert p in paths[1..];
        }
      }
    }
  }

  /**
   * The first pass, over the scan's keys in order: an asset whose bundle is in
   * `abDic` and not yet in the dictionary adds that bundle with its
   * dependencies' bundle paths.
   */
  function DependenciesDic(bundles: set<string>, dm: DepsMap, keys: seq<string>, dic: DepsMap): (r: DepsMap)
    requires Elems(keys) <= dm.sets.Keys && Slashed(dm)
    decreases keys
  {
    if keys == [] then dic
    else
      assert keys[0] in Elems(keys) && Elems(keys[1..]) <= Elems(keys);
      var abPath := ConvertAssetPath2ABPath(keys[0]);
      var dic1 := if abPath in bundles && abPath !in dic.sets
        then DepsMap(dic.keys + [abPath], dic.sets[abPath := DepABPaths([], dm.sets[keys[0]])])
        else dic;
      DependenciesDic(bundles, dm, keys[1..], dic1)
  }

  /** The first of `keys` whose bundle is `abPath`: the asset whose dependencies the bundle gets. */
  function FirstOfBundle(dm: DepsMap, keys: seq<string>, abPath: string): (k: string)
    requires Elems(keys) <= dm.sets.Keys && Slashed(dm)
    requires exists k :: k in keys && ConvertAssetPath2ABPath(k) == abPath
    ensures k in keys && ConvertAssetPath2ABPath(k) == abPath
  {
    assert keys[0] in Elems(keys) && Elems(keys[1..]) <= Elems(keys);
    if ConvertAssetPath2ABPath(keys[0]) == abPath then keys[0]
    else
      var k :| k in keys && ConvertAssetPath2ABPath(k) == abPath;
      assert k in keys[1..];
      FirstOfBundle(dm, keys[1..], abPath)
  }

  // ---------------------------------------------------------------- the index and the records

  /** `abPath2IndexDic`: where a bundle path sits in `allABPathList`. */
  function IndexIn(order: seq<string>, x: string): (i: nat)
    requires x in order
    ensures i < |order| && order[i] == x
    ensures forall j :: 0 <= j < i ==> order[j] != x
  {
    if order[0] == x then 0 else 1 + IndexIn(order[1..], x)
  }

  /** The indices written for one bundle's dependencies; the first one missing from the index throws. */
  function DepIndexes(order: seq<string>, deps: seq<string>): (r: Written<seq<int32>>)
    requires |order| < TwoTo31
    ensures r.Written? <==> forall d :: d in deps ==> d in order
    ensures r.Written? ==> |r.value| == |deps|
    ensures r.Written? ==>
      forall j :: 0 <= j < |deps| ==> 0 <= r.value[j] < |order| && order[r.value[j]] == deps[j]
    ensures r.KeyNotFound? ==> r.key in deps && r.key !in order
  {
    if deps == [] then Written([])
    else if deps[0] !in order then KeyNotFound(deps[0])
    else match DepIndexes(order, deps[1..])
      case KeyNotFound(k) => KeyNotFound(k)
      case Written(rest) => Written([IndexIn(order, deps[0]) as int32] + rest)
  }

  /** The bundle part of the file, one record per path of `names`, in order. */
  function BundleRecords(dic: DepsMap, order: seq<string>, names: seq<string>): (r: Written<seq<BundleRecord>>)
    requires |order| < TwoTo31 && DicOk(dic) && Elems(names) <= dic.sets.Keys
    ensures r.Written? ==> |r.value| == |names|
  {
    if names == [] then Written([])
    else
      assert names[0] in Elems(names) && Elems(names[1..]) <= Elems(names);
      var deps := dic.sets[names[0]];
      match DepIndexes(order, deps)
      case KeyNotFound(k) => KeyNotFound(k)
      case Written(idx) =>
        DistinctBound(deps, order);
        match BundleRecords(dic, order, names[1..])
        case KeyNotFound(k) => KeyNotFound(k)
        case Written(rest) => Written([BundleRecord(names[0], idx)] + rest)
  }

  /** The asset part of the file: each asset's hash and its bundle's index. */
  function AssetRecords(order: seq<string>, assets: seq<AssetUnitModel>): (r: Written<seq<AssetRecord>>)
    requires |order| < TwoTo31
    ensures r.Written? ==> |r.value| == |assets|
  {
    if assets == [] then Written([])
    else if assets[0].abPath !in order then KeyNotFound(assets[0].abPath)
    else match AssetRecords(order, assets[1..])
      case KeyNotFound(k) => KeyNotFound(k)
      case Written(rest) =>
        Written([AssetRecord(assets[0].assetPathHash, IndexIn(order, assets[0].abPath) as int32)] + rest)
  }

  /**
   * The bundle records are written exactly when every dependency bundle has an
   * index; record `i` is then bundle `names[i]`, and its indices point at its
   * dependency bundles, in order. Otherwise the missing key is one of them.
   */
  lemma {:induction false} BundleRecordsMeaning(dic: DepsMap, order: seq<string>, names: seq<string>)
    requires |order| < TwoTo31 && DicOk(dic) && Elems(names) <= dic.sets.Keys
    ensures var r := BundleRecords(dic, order, names);
      (r.Written? <==> forall b, d :: b in names && d in dic.sets[b] ==> d in order) &&
      (r.Written? ==>
        forall i :: 0 <= i < |names| ==>
        r.value[i].abPath == names[i] && |r.value[i].depIndexs| == |dic.sets[names[i]]| &&
        forall j :: 0 <= j < |r.value[i].depIndexs| ==>
          0 <= r.value[i].depIndexs[j] < |order| && order[r.value[i].depIndexs[j]] == dic.sets[names[i]][j]) &&
      (r.KeyNotFound? ==> r.key !in order && exists b :: b in names && r.key in dic.sets[b])
  {
    if names != [] {
      assert names[0] in Elems(names) && Elems(names[1..]) <= Elems(names);
      BundleRecordsMeaning(dic, order, names[1..]);
      assert forall b :: b in names ==> b == names[0] || b in names[1..];
    }
  }

  /** One step of the bundle records: the first bundle's indices, then the rest. */
  lemma BundleRecordsStep(dic: DepsMap, order: seq<string>, names: seq<string>)
    requires |order| < TwoTo31 && DicOk(dic) && Elems(names) <= dic.sets.Keys && names != []
    ensures names[0] in dic.sets && Elems(names[1..]) <= dic.sets.Keys
    ensures var w := DepIndexes(order, dic.sets[names[0]]);
      w.KeyNotFound? ==> BundleRecords(dic, order, names) == KeyNotFound(w.key)
    ensures var w := DepIndexes(order, dic.sets[names[0]]);
      w.Written? ==>
        |w.value| < TwoTo31 &&
        BundleRecords(dic, order, names) == Prefixed([BundleRecord(names[0], w.value)], BundleRecords(dic, order, names[1..]))
  {
    assert names[0] in Elems(names) && Elems(names[1..]) <= Elems(names);
    var deps := dic.sets[names[0]];
    if DepIndexes(order, deps).Written? {
      DistinctBound(deps, order);
    }
  }

  /**
   * The asset records are written exactly when every asset's bundle has an
   * index; record `i` then holds asset `i`'s hash and its bundle's index.
   */
  lemma {:induction false} AssetRecordsMeaning(order: seq<string>, assets: seq<AssetUnitModel>)
    requires |order| < TwoTo31
    ensures var r := AssetRecords(order, assets);
      (r.Written? <==> forall a :: a in assets ==> a.abPath in order) &&
      (r.Written? ==>
        forall i :: 0 <= i < |assets| ==>
        r.value[i].hash == assets[i].assetPathHash &&
        0 <= r.value[i].index < |order| && order[r.value[i].index] == assets[i].abPath) &&
      (r.KeyNotFound? ==> r.key !in order && exists a :: a in assets && a.abPath == r.key)
  {
    if assets != [] {
      AssetRecordsMeaning(order, assets[1..]);
      assert forall a :: a in assets ==> a == assets[0] || a in assets[1..];
    }
  }

  // ---------------------------------------------------------------- the asset list

  /** `IsContains` with the pair comparison the writer passes it. */
  predicate Listed(list: seq<AssetUnitModel>, a: AssetUnitModel)
  {
    exists v :: v in list && SamePair(a, v)
  }

  /** The pairs of `list` appended to `acc`, in order, skipping any pair already listed. */
  function DistinctAssets(acc: seq<AssetUnitModel>, list: seq<AssetUnitModel>): (r: seq<AssetUnitModel>)
    decreases list
  {
    if list == [] then acc
    else DistinctAssets(if Listed(acc, list[0]) then acc else acc + [list[0]], list[1..])
  }

  /** `tempAssetList`: the assets of the bundles in `keys`, in order, each pair once. */
  function AssetsOf(st: EditorState, keys: seq<string>, acc: seq<AssetUnitModel>): (r: seq<AssetUnitModel>)
    requires Elems(keys) <= st.abDic.Keys
    decreases keys
  {
    if keys == [] then acc
    else
      assert keys[0] in Elems(keys) && Elems(keys[1..]) <= Elems(keys);
      AssetsOf(st, keys[1..], DistinctAssets(acc, st.abDic[keys[0]].assetList))
  }

  function TempAssetList(st: EditorState): (r: seq<AssetUnitModel>)
    requires Elems(st.abKeys) <= st.abDic.Keys
  {
    AssetsOf(st, st.abKeys, [])
  }

  // ---------------------------------------------------------------- the file

  /** `abPathDependenciesDic` after the first pass over the whole scan. */
  function AbPathDependenciesDic(st: EditorState, dm: DepsMap): DepsMap
    requires Elems(dm.keys) <= dm.sets.Keys && Slashed(dm)
  {
    DependenciesDic(st.abDic.Keys, dm, dm.keys, DepsMap([], map[]))
  }

  /**
   * `WriteABInfo2ByteFile` on the editor state and the scan. The C# lists are
   * indexed by `int`, so the scan and the asset list hold fewer than 2^31
   * entries.
   */
  function ByteFile(st: EditorState, dm: DepsMap): (r: Written<MapFile>)
    requires Elems(st.abKeys) <= st.abDic.Keys && Elems(dm.keys) <= dm.sets.Keys && Slashed(dm)
    requires |dm.keys| < TwoTo31 && |TempAssetList(st)| < TwoTo31
    ensures r.Written? ==> Fits(r.value)
  {
    var dic := AbPathDependenciesDic(st, dm);
    DependenciesDicOk(st.abDic.Keys, dm, dm.keys, DepsMap([], map[]));
    match BundleRecords(dic, dic.keys, dic.keys)
    case KeyNotFound(k) => KeyNotFound(k)
    case Written(bs) =>
      match AssetRecords(dic.keys, TempAssetList(st))
      case KeyNotFound(k) => KeyNotFound(k)
      case Written(rs) => Written(MapFile(bs, rs))
  }

  // ---------------------------------------------------------------- helper facts

  lemma DependenciesDicOk(bundles: set<string>, dm: DepsMap, keys: seq<string>, dic: DepsMap)
    requires Elems(keys) <= dm.sets.Keys && Slashed(dm) && DicOk(dic)
    ensures DicOk(DependenciesDic(bundles, dm, keys, dic))
    ensures |DependenciesDic(bundles, dm, keys, dic).keys| <= |dic.keys| + |keys|
    decreases keys
  {
    if keys != [] {
      assert keys[0] in Elems(keys) && Elems(keys[1..]) <= Elems(keys);
      var abPath := ConvertAssetPath2ABPath(keys[0]);
      if abPath in bundles && abPath !in dic.sets {
        var deps := DepABPaths([], dm.sets[keys[0]]);
        DepABPathsMeaning([], dm.sets[keys[0]], abPath);
        NoDupAppend(dic.keys, abPath);
        var dic1 := DepsMap(dic.keys + [abPath], dic.sets[abPath := deps]);
        assert Elems(dic1.keys) == Elems(dic.keys) + {abPath};
        DependenciesDicOk(bundles, dm, keys[1..], dic1);
      } else {
        DependenciesDicOk(bundles, dm, keys[1..], dic);
      }
    }
  }

  /** A list without repeats, all of whose elements are in `ys`, is no longer than `ys`. */
  lemma DistinctBound(xs: seq<string>, ys: seq<string>)
    requires NoDup(xs) && forall x :: x in xs ==> x in ys
    ensures |xs| <= |ys|
  {
    NoDupCard(xs);
    ElemsCard(ys);
    SubsetCard(Elems(xs), Elems(ys));
  }

  lemma {:induction false} NoDupCard<T>(s: seq<T>)
    requires NoDup(s)
    ensures |Elems(s)| == |s|
  {
    if s != [] {
      assert Elems(s) == {s[0]} + Elems(s[1..]);
      assert s[0] !in Elems(s[1..]) by {
        assert forall k :: 0 <= k < |s[1..]| ==> s[1..][k] == s[k + 1];
      }
      assert NoDup(s[1..]) by {
        assert forall k :: 0 <= k < |s[1..]| ==> s[1..][k] == s[k + 1];
      }
      NoDupCard(s[1..]);
    }
  }

  lemma {:induction false} ElemsCard<T>(s: seq<T>)
    ensures |Elems(s)| <= |s|
  {
    if s != [] {
      assert Elems(s) == {s[0]} + Elems(s[1..]);
      ElemsCard(s[1..]);
    }
  }

  lemma {:induction false} EncodeIntsSnoc(xs: seq<int32>, x: int32)
    ensures EncodeInts(xs + [x]) == EncodeInts(xs) + [IntTok(x)]
  {
    if xs != [] {
      assert (xs + [x])[1..] == xs[1..] + [x];
      EncodeIntsSnoc(xs[1..], x);
    } else {
      assert xs + [x] == [x];
    }
  }

  lemma {:induction false} EncodeBundlesSnoc(bs: seq<BundleRecord>, b: BundleRecord)
    ensures EncodeBundles(bs + [b]) == EncodeBundles(bs) + EncodeBundle(b)
  {
    if bs != [] {
      assert (bs + [b])[1..] == bs[1..] + [b];
      EncodeBundlesSnoc(bs[1..], b);
    } else {
      assert bs + [b] == [b];
    }
  }

  lemma {:induction false} EncodeAssetsSnoc(rs: seq<AssetRecord>, a: AssetRecord)
    ensures EncodeAssets(rs + [a]) == EncodeAssets(rs) + [IntTok(ToInt32(a.hash)), IntTok(a.index)]
  {
    if rs != [] {
      assert (rs + [a])[1..] == rs[1..] + [a];
      EncodeAssetsSnoc(rs[1..], a);
    } else {
      assert rs + [a] == [a];
    }
  }

  // ---------------------------------------------------------------- what the file holds

  /**
   * The first pass lists a bundle exactly when it is in `abDic` and some
   * scanned asset lives in it, and gives it the dependencies' bundle paths of
   * the first such asset; entries made before are kept.
   */
  lemma {:induction false} DependenciesDicMeaning(bundles: set<string>, dm: DepsMap, keys: seq<string>, dic: DepsMap, b: string)
    requires Elems(keys) <= dm.sets.Keys && Slashed(dm)
    ensures var r := DependenciesDic(bundles, dm, keys, dic);
      (b in r.sets <==> b in dic.sets || (b in bundles && exists k :: k in keys && ConvertAssetPath2ABPath(k) == b)) &&
      (b in dic.sets ==> r.sets[b] == dic.sets[b]) &&
      (b !in dic.sets && b in r.sets ==> r.sets[b] == DepABPaths([], dm.sets[FirstOfBundle(dm, keys, b)]))
    decreases keys
  {
    if keys != [] {
      assert keys[0] in Elems(keys) && Elems(keys[1..]) <= Elems(keys);
      var abPath := ConvertAssetPath2ABPath(keys[0]);
      var dic1 := if abPath in bundles && abPath !in dic.sets
        then DepsMap(dic.keys + [abPath], dic.sets[abPath := DepABPaths([], dm.sets[keys[0]])])
        else dic;
      DependenciesDicMeaning(bundles, dm, keys[1..], dic1, b);
      assert forall k :: k in keys <==> k == keys[0] || k in keys[1..];
    }
  }

  /**
   * In the dictionary the writer builds from a scan, bundle `b` is listed
   * exactly when `abDic` has it and a scanned asset lives in it; its list is
   * the bundle path of each dependency of the first such asset, once each.
   */
  lemma AbPathDependenciesMeaning(st: EditorState, dm: DepsMap, b: string, x: string)
    requires Elems(dm.keys) <= dm.sets.Keys && Slashed(dm)
    ensures var dic := AbPathDependenciesDic(st, dm);
      DicOk(dic) &&
      (b in dic.sets <==> b in st.abDic && exists k :: k in dm.keys && ConvertAssetPath2ABPath(k) == b) &&
      (b in dic.sets ==>
        var first := FirstOfBundle(dm, dm.keys, b);
        x in dic.sets[b] <==> exists p :: p in dm.sets[first] && ConvertAssetPath2ABPath(p) == x)
  {
    DependenciesDicOk(st.abDic.Keys, dm, dm.keys, DepsMap([], map[]));
    DependenciesDicMeaning(st.abDic.Keys, dm, dm.keys, DepsMap([], map[]), b);
    var dic := AbPathDependenciesDic(st, dm);
    if b in dic.sets {
      var first := FirstOfBundle(dm, dm.keys, b);
      assert first in Elems(dm.keys);
      DepABPathsMeaning([], dm.sets[first], x);
    }
  }

  /** The file is written exactly when every dependency bundle and every asset's bundle has an index. */
  lemma ByteFileWrittenIff(st: EditorState, dm: DepsMap)
    requires Elems(st.abKeys) <= st.abDic.Keys && Elems(dm.keys) <= dm.sets.Keys && Slashed(dm)
    requires |dm.keys| < TwoTo31 && |TempAssetList(st)| < TwoTo31
    ensures var dic := AbPathDependenciesDic(st, dm);
      ByteFile(st, dm).Written? <==>
        (forall b, d :: b in dic.sets && d in dic.sets[b] ==> d in dic.keys) &&
        (forall a :: a in TempAssetList(st) ==> a.abPath in dic.keys)
    ensures var dic := AbPathDependenciesDic(st, dm);
      ByteFile(st, dm).KeyNotFound? ==>
        ByteFile(st, dm).key !in dic.keys &&
        ((exists b :: b in dic.sets && ByteFile(st, dm).key in dic.sets[b]) ||
         (exists a :: a in TempAssetList(st) && a.abPath == ByteFile(st, dm).key))
  {
    var dic := AbPathDependenciesDic(st, dm);
    DependenciesDicOk(st.abDic.Keys, dm, dm.keys, DepsMap([], map[]));
    BundleRecordsMeaning(dic, dic.keys, dic.keys);
    AssetRecordsMeaning(dic.keys, TempAssetList(st));
  }

  /**
   * A written file lists the dictionary's bundles in order, each with the
   * indices of its dependency bundles, and one entry per asset of
   * `tempAssetList` with its hash and the index of its bundle.
   */
  lemma ByteFileContents(st: EditorState, dm: DepsMap)
    requires Elems(st.abKeys) <= st.abDic.Keys && Elems(dm.keys) <= dm.sets.Keys && Slashed(dm)
    requires |dm.keys| < TwoTo31 && |TempAssetList(st)| < TwoTo31
    requires ByteFile(st, dm).Written?
    ensures var dic := AbPathDependenciesDic(st, dm);
      var f := ByteFile(st, dm).value;
      DicOk(dic) && |f.bundles| == |dic.keys| &&
      (forall i :: 0 <= i < |dic.keys| ==>
        f.bundles[i].abPath == dic.keys[i] && |f.bundles[i].depIndexs| == |dic.sets[dic.keys[i]]| &&
        forall j :: 0 <= j < |f.bundles[i].depIndexs| ==>
          0 <= f.bundles[i].depIndexs[j] < |dic.keys| &&
          dic.keys[f.bundles[i].depIndexs[j]] == dic.sets[dic.keys[i]][j])
    ensures var dic := AbPathDependenciesDic(st, dm);
      var f := ByteFile(st, dm).value;
      var assets := TempAssetList(st);
      |f.assets| == |assets| &&
      forall i :: 0 <= i < |assets| ==>
        f.assets[i].hash == assets[i].assetPathHash &&
        0 <= f.assets[i].index < |dic.keys| && dic.keys[f.assets[i].index] == assets[i].abPath
  {
    var dic := AbPathDependenciesDic(st, dm);
    DependenciesDicOk(st.abDic.Keys, dm, dm.keys, DepsMap([], map[]));
    BundleRecordsMeaning(dic, dic.keys, dic.keys);
    AssetRecordsMeaning(dic.keys, TempAssetList(st));
  }

  lemma UniquePairsAppend(list: seq<AssetUnitModel>, a: AssetUnitModel)
    requires UniquePairs(list) && !Listed(list, a)
    ensures UniquePairs(list + [a])
  {
    forall i | 0 <= i < |list|
      ensures !SamePair(list[i], a)
    {
      assert list[i] in list;
    }
  }

  /** The pair dedup keeps earlier entries, adds the list's unlisted pairs and nothing else. */
  lemma {:induction false} DistinctAssetsMeaning(acc: seq<AssetUnitModel>, list: seq<AssetUnitModel>, a: AssetUnitModel)
    ensures UniquePairs(acc) ==> UniquePairs(DistinctAssets(acc, list))
    ensures Listed(DistinctAssets(acc, list), a) <==> Listed(acc, a) || Listed(list, a)
    ensures a in DistinctAssets(acc, list) ==> a in acc || a in list
    decreases list
  {
    if list != [] {
      var acc1 := if Listed(acc, list[0]) then acc else acc + [list[0]];
      if UniquePairs(acc) && !Listed(acc, list[0]) {
        UniquePairsAppend(acc, list[0]);
      }
      DistinctAssetsMeaning(acc1, list[1..], a);
      assert forall v :: v in list <==> v == list[0] || v in list[1..];
      if Listed(acc1, a) && !Listed(acc, a) {
        assert SamePair(a, list[0]);
      }
      if Listed(acc, list[0]) && SamePair(a, list[0]) {
        var v :| v in acc && SamePair(list[0], v);
        assert SamePair(a, v);
      }
    }
  }

  lemma {:induction false} AssetsOfMeaning(st: EditorState, keys: seq<string>, acc: seq<AssetUnitModel>, a: AssetUnitModel)
    requires Elems(keys) <= st.abDic.Keys
    ensures UniquePairs(acc) ==> UniquePairs(AssetsOf(st, keys, acc))
    ensures Listed(AssetsOf(st, keys, acc), a) <==>
      Listed(acc, a) || exists k :: k in keys && k in st.abDic && Listed(st.abDic[k].assetList, a)
    ensures a in AssetsOf(st, keys, acc) ==>
      a in acc || exists k :: k in keys && k in st.abDic && a in st.abDic[k].assetList
    decreases keys
  {
    if keys != [] {
      assert keys[0] in Elems(keys) && Elems(keys[1..]) <= Elems(keys);
      var acc1 := DistinctAssets(acc, st.abDic[keys[0]].assetList);
      DistinctAssetsMeaning(acc, st.abDic[keys[0]].assetList, a);
      AssetsOfMeaning(st, keys[1..], acc1, a);
      assert forall k :: k in keys <==> k == keys[0] || k in keys[1..];
    }
  }

  /**
   * `tempAssetList` holds no (bundle path, asset path) pair twice, lists the
   * pair of every asset of every bundle, and holds nothing else.
   */
  lemma TempAssetListMeaning(st: EditorState, a: AssetUnitModel)
    requires Elems(st.abKeys) <= st.abDic.Keys
    ensures UniquePairs(TempAssetList(st))
    ensures Listed(TempAssetList(st), a) <==>
      exists k :: k in st.abKeys && k in st.abDic && Listed(st.abDic[k].assetList, a)
    ensures a in TempAssetList(st) ==>
      exists k :: k in st.abKeys && k in st.abDic && a in st.abDic[k].assetList
  {
    AssetsOfMeaning(st, st.abKeys, [], a);
  }

  // ---------------------------------------------------------------- from the scan to the runtime

  /** Every path the scan records has an importer, hence a directory part, so the writer accepts the scan. */
  lemma GeneratedScanIsWritable(db: AssetDb, st: EditorState)
    requires DbOk(db) && Elems(st.abKeys) <= st.abDic.Keys
    ensures var dm := GenerateAll(db, st);
      Elems(dm.keys) <= dm.sets.Keys && Slashed(dm)
  {
    var dm := GenerateAll(db, st);
    GenerateAllMeaning(db, st);
    forall k | k in dm.sets
      ensures '/' in k && forall p :: p in dm.sets[k] ==> '/' in p
    {
      assert k in Elems(dm.keys);
      AddImportedMembers(db, [], ScannedPaths(st, st.abKeys), k);
      forall p | p in dm.sets[k]
        ensures '/' in p
      {
        ImportedMembers(db, DepsRec(db, k, []), p);
      }
    }
  }

  /** No bundle of a written file lists the same dependency index twice. */
  lemma WrittenIndicesDistinct(st: EditorState, dm: DepsMap)
    requires Elems(st.abKeys) <= st.abDic.Keys && Elems(dm.keys) <= dm.sets.Keys && Slashed(dm)
    requires |dm.keys| < TwoTo31 && |TempAssetList(st)| < TwoTo31
    requires ByteFile(st, dm).Written?
    ensures var f := ByteFile(st, dm).value;
      forall i :: 0 <= i < |f.bundles| ==> NoDup(f.bundles[i].depIndexs)
  {
    var f := ByteFile(st, dm).value;
    var dic := AbPathDependenciesDic(st, dm);
    ByteFileContents(st, dm);
    forall i | 0 <= i < |f.bundles|
      ensures NoDup(f.bundles[i].depIndexs)
    {
      assert dic.keys[i] in Elems(dic.keys);
      var deps := dic.sets[dic.keys[i]];
      assert NoDup(deps);
      forall j1, j2 | 0 <= j1 < j2 < |f.bundles[i].depIndexs|
        ensures f.bundles[i].depIndexs[j1] != f.bundles[i].depIndexs[j2]
      {
        assert deps[j1] != deps[j2];
      }
    }
  }

  /**
   * Reading a written file back gives the runtime one model per bundle of the
   * dictionary, in its order, whose indices lead to the models of its
   * dependency bundles, and the first-wins table of the asset entries.
   */
  lemma DecodedFileMatchesDictionary(st: EditorState, dm: DepsMap)
    requires Elems(st.abKeys) <= st.abDic.Keys && Elems(dm.keys) <= dm.sets.Keys && Slashed(dm)
    requires |dm.keys| < TwoTo31 && |TempAssetList(st)| < TwoTo31
    requires ByteFile(st, dm).Written?
    ensures var f := ByteFile(st, dm).value;
      LoaderSpec.ParseMap(LoaderSpec.Initial(), true, Encode(f)) == (LoaderSpec.AfterParse(f), true)
    ensures var f := ByteFile(st, dm).value;
      var s := LoaderSpec.AfterParse(f);
      var dic := AbPathDependenciesDic(st, dm);
      DicOk(dic) && |s.models| == |dic.keys| && s.hash2Index == FirstWins(f.assets, map[]) &&
      forall i :: 0 <= i < |dic.keys| ==>
        s.models[i].abPath == dic.keys[i] && |s.models[i].depIndexs| == |dic.sets[dic.keys[i]]| &&
        forall j :: 0 <= j < |s.models[i].depIndexs| ==>
          0 <= s.models[i].depIndexs[j] < |s.models| &&
          s.models[s.models[i].depIndexs[j]].abPath == dic.sets[dic.keys[i]][j]
  {
    var f := ByteFile(st, dm).value;
    LoaderSpec.ParseEncoded(f);
    ByteFileContents(st, dm);
  }

  /**
   * The runtime reading a written file reads all of it; looking up a name
   * whose hash first appears at asset `i` of `tempAssetList` yields the model
   * of that asset's bundle, whose dependency indices lead to the models of
   * the bundle's dependency bundles, in order.
   */
  lemma LoaderReadsWrittenFile(st: EditorState, dm: DepsMap, name: string, i: nat)
    requires Elems(st.abKeys) <= st.abDic.Keys && Elems(dm.keys) <= dm.sets.Keys && Slashed(dm)
    requires |dm.keys| < TwoTo31 && |TempAssetList(st)| < TwoTo31
    requires ByteFile(st, dm).Written?
    requires i < |TempAssetList(st)| && TempAssetList(st)[i].assetPathHash == LoaderSpec.KeyOf(name)
    requires forall j :: 0 <= j < i ==> TempAssetList(st)[j].assetPathHash != LoaderSpec.KeyOf(name)
    ensures var f := ByteFile(st, dm).value;
      LoaderSpec.ParseMap(LoaderSpec.Initial(), true, Encode(f)) == (LoaderSpec.AfterParse(f), true)
    ensures var f := ByteFile(st, dm).value;
      var s := LoaderSpec.AfterParse(f);
      var dic := AbPathDependenciesDic(st, dm);
      var abPath := TempAssetList(st)[i].abPath;
      abPath in dic.sets &&
      LoaderSpec.ModelOf(s, name).Model? && LoaderSpec.ModelOf(s, name).m.abPath == abPath &&
      |LoaderSpec.ModelOf(s, name).m.depIndexs| == |dic.sets[abPath]| &&
      forall j :: 0 <= j < |dic.sets[abPath]| ==>
        0 <= LoaderSpec.ModelOf(s, name).m.depIndexs[j] < |s.models| &&
        s.models[LoaderSpec.ModelOf(s, name).m.depIndexs[j]].abPath == dic.sets[abPath][j]
  {
    var f := ByteFile(st, dm).value;
    var dic := AbPathDependenciesDic(st, dm);
    LoaderSpec.ParseEncoded(f);
    ByteFileContents(st, dm);
    assert LoaderSpec.KeyOf(name) == f.assets[i].hash;
    assert FirstWith(f.assets, LoaderSpec.KeyOf(name), i);
    LoaderSpec.LookupAfterParse(f, name, i);
    var b := f.assets[i].index;
    assert dic.keys[b] in Elems(dic.keys);
  }

  // ---------------------------------------------------------------- the writer

  /** The written prefix followed by what the rest writes, or the rest's failure. */
  function Prefixed<T>(prefix: seq<T>, w: Written<seq<T>>): (r: Written<seq<T>>)
    ensures r.Written? <==> w.Written?
    ensures r.Written? ==> |r.value| == |prefix| + |w.value|
    ensures w.KeyNotFound? ==> r == w
  {
    match w
    case Written(v) => Written(prefix + v)
    case KeyNotFound(k) => KeyNotFound(k)
  }

  /**
   * `WriteABInfo2ByteFile`: the token stream the BinaryWriter receives, or the
   * key whose lookup threw. `abKeys` and `abDic` are read from the editor.
   */
  method WriteABInfo2ByteFile(editor: Editor, depsMap: DepsMap) returns (r: Written<seq<Token>>)
    requires Elems(editor.abKeys) <= editor.abDic.Keys
    requires Elems(depsMap.keys) <= depsMap.sets.Keys && Slashed(depsMap)
    requires |depsMap.keys| < TwoTo31 && |TempAssetList(editor.State())| < TwoTo31
    ensures ByteFile(editor.State(), depsMap).Written? ==>
      r == Written(Encode(ByteFile(editor.State(), depsMap).value))
    ensures ByteFile(editor.State(), depsMap).KeyNotFound? ==>
      r == KeyNotFound(ByteFile(editor.State(), depsMap).key)
  {
    var abPathDependenciesDic := CollectDependencies(editor.abDic.Keys, depsMap);
    DependenciesDicOk(editor.abDic.Keys, depsMap, depsMap.keys, DepsMap([], map[]));
    var allABPathList, abPath2IndexDic := IndexBundles(abPathDependenciesDic);
    var bundleTokens := WriteBundles(abPathDependenciesDic, allABPathList, abPath2IndexDic);
    if bundleTokens.KeyNotFound? {
      return KeyNotFound(bundleTokens.key);
    }
    var tempAssetList := CollectAssets(editor);
    var assetTokens := WriteAssets(allABPathList, abPath2IndexDic, tempAssetList);
    if assetTokens.KeyNotFound? {
      return KeyNotFound(assetTokens.key);
    }
    r := Written([IntTok(|allABPathList|)] + bundleTokens.value + [IntTok(|tempAssetList|)] + assetTokens.value);
  }

  /** The first pass: `abPathDependenciesDic`. */
  method CollectDependencies(bundles: set<string>, depsMap: DepsMap) returns (dic: DepsMap)
    requires Elems(depsMap.keys) <= depsMap.sets.Keys && Slashed(depsMap)
    ensures dic == DependenciesDic(bundles, depsMap, depsMap.keys, DepsMap([], map[]))
  {
    dic := DepsMap([], map[]);
    var keys := depsMap.keys;
    var i := 0;
    while i < |keys|
      invariant 0 <= i <= |keys|
      invariant Elems(keys[i..]) <= depsMap.sets.Keys
      invariant DependenciesDic(bundles, depsMap, keys[i..], dic) == DependenciesDic(bundles, depsMap, keys, DepsMap([], map[]))
    {
      assert keys[i..][0] == keys[i] && keys[i..][1..] == keys[i + 1..];
      assert keys[i] in Elems(keys[i..]) && Elems(keys[i + 1..]) <= Elems(keys[i..]);
      var abPath := ConvertAssetPath2ABPath(keys[i]);
      if abPath in bundles && abPath !in dic.sets {
        var dependencies := BundlePathsOf(depsMap.sets[keys[i]]);
        dic := DepsMap(dic.keys + [abPath], dic.sets[abPath := dependencies]);
      }
      i := i + 1;
    }
  }

  /** The dependency list of one bundle: each dependency's bundle path, once. */
  method BundlePathsOf(paths: seq<string>) returns (dependencies: seq<string>)
    requires forall p :: p in paths ==> '/' in p
    ensures dependencies == DepABPaths([], paths)
  {
    dependencies := [];
    var j := 0;
    while j < |paths|
      invariant 0 <= j <= |paths|
      invariant DepABPaths(dependencies, paths[j..]) == DepABPaths([], paths)
    {
      assert paths[j..][0] == paths[j] && paths[j..][1..] == paths[j + 1..];
      var depABPath := ConvertAssetPath2ABPath(paths[j]);
      if depABPath !in dependencies {
        dependencies := dependencies + [depABPath];
      }
      j := j + 1;
    }
    assert paths[j..] == [];
  }

  /** The second pass: `allABPathList` and `abPath2IndexDic`. */
  method IndexBundles(dic: DepsMap) returns (allABPathList: seq<string>, abPath2IndexDic: map<string, int>)
    requires NoDup(dic.keys)
    ensures allABPathList == dic.keys
    ensures abPath2IndexDic.Keys == Elems(dic.keys)
    ensures forall b :: b in abPath2IndexDic ==> abPath2IndexDic[b] == IndexIn(dic.keys, b)
  {
    allABPathList := [];
    abPath2IndexDic := map[];
    var i := 0;
    while i < |dic.keys|
      invariant 0 <= i <= |dic.keys|
      invariant allABPathList == dic.keys[..i]
      invariant abPath2IndexDic.Keys == Elems(dic.keys[..i])
      invariant forall j :: 0 <= j < i ==> abPath2IndexDic[dic.keys[j]] == j
    {
      var abPath := dic.keys[i];
      assert abPath !in Elems(dic.keys[..i]);
      if abPath !in abPath2IndexDic {
        allABPathList := allABPathList + [abPath];
        abPath2IndexDic := abPath2IndexDic[abPath := |allABPathList| - 1];
      }
      assert dic.keys[..i + 1] == dic.keys[..i] + [abPath];
      i := i + 1;
    }
    assert dic.keys[..i] == dic.keys;
    forall b | b in abPath2IndexDic
      ensures abPath2IndexDic[b] == IndexIn(dic.keys, b)
    {
      var k := IndexIn(dic.keys, b);
      var j :| 0 <= j < |dic.keys| && dic.keys[j] == b;
      assert j == k;
    }
  }

  lemma PrefixedEmpty<T>(w: Written<seq<T>>)
    ensures Prefixed([], w) == w
  {
    if w.Written? {
      assert [] + w.value == w.value;
    }
  }

  lemma PrefixedCons<T>(recs: seq<T>, x: T, w: Written<seq<T>>)
    ensures Prefixed(recs, Prefixed([x], w)) == Prefixed(recs + [x], w)
  {
    if w.Written? {
      assert recs + ([x] + w.value) == recs + [x] + w.value;
    }
  }

  /** One turn of the bundle loop: bundle `order[i]`'s record, or the key its lookup misses. */
  lemma BundleLoopStep(dic: DepsMap, order: seq<string>, i: nat, recs: seq<BundleRecord>, all: Written<seq<BundleRecord>>)
    requires DicOk(dic) && order == dic.keys && |order| < TwoTo31 && i < |order|
    requires all == Prefixed(recs, BundleRecords(dic, order, order[i..]))
    ensures order[i] in dic.sets && NoDup(dic.sets[order[i]])
    ensures var w := DepIndexes(order, dic.sets[order[i]]);
      w.KeyNotFound? ==> all == KeyNotFound(w.key)
    ensures var w := DepIndexes(order, dic.sets[order[i]]);
      w.Written? ==>
        |w.value| < TwoTo31 &&
        all == Prefixed(recs + [BundleRecord(order[i], w.value)], BundleRecords(dic, order, order[i + 1..]))
  {
    assert order[i..][0] == order[i] && order[i..][1..] == order[i + 1..];
    assert Elems(order[i..]) <= Elems(order) && Elems(order[i + 1..]) <= Elems(order);
    assert order[i] in Elems(order);
    BundleRecordsStep(dic, order, order[i..]);
    var w := DepIndexes(order, dic.sets[order[i]]);
    if w.Written? {
      PrefixedCons(recs, BundleRecord(order[i], w.value), BundleRecords(dic, order, order[i + 1..]));
    }
  }

  /** The third pass, bundle part: path, dependency count and dependency indices of each bundle. */
  method WriteBundles(dic: DepsMap, order: seq<string>, abPath2IndexDic: map<string, int>)
    returns (r: Written<seq<Token>>)
    requires DicOk(dic) && order == dic.keys && |order| < TwoTo31
    requires abPath2IndexDic.Keys == Elems(order)
    requires forall b :: b in abPath2IndexDic ==> abPath2IndexDic[b] == IndexIn(order, b)
    ensures BundleRecords(dic, order, order).Written? ==>
      r == Written(EncodeBundles(BundleRecords(dic, order, order).value))
    ensures BundleRecords(dic, order, order).KeyNotFound? ==>
      r == KeyNotFound(BundleRecords(dic, order, order).key)
  {
    ghost var all := BundleRecords(dic, order, order);
    ghost var recs: seq<BundleRecord> := [];
    PrefixedEmpty(all);
    assert order[0..] == order;
    var tokens: seq<Token> := [];
    var i := 0;
    while i < |order|
      invariant 0 <= i <= |order|
      invariant all == Prefixed(recs, BundleRecords(dic, order, order[i..]))
      invariant tokens == EncodeBundles(recs)
    {
      BundleLoopStep(dic, order, i, recs, all);
      var abPath := order[i];
      var bundleTokens := WriteBundle(order, abPath2IndexDic, abPath, dic.sets[abPath]);
      if bundleTokens.KeyNotFound? {
        return KeyNotFound(bundleTokens.key);
      }
      ghost var b := BundleRecord(abPath, DepIndexes(order, dic.sets[abPath]).value);
      EncodeBundlesSnoc(recs, b);
      tokens := tokens + bundleTokens.value;
      recs := recs + [b];
      i := i + 1;
    }
    assert order[i..] == [];
    assert recs + [] == recs;
    r := Written(tokens);
  }

  /** One bundle's record: its path, its dependency count, then the indices. */
  method WriteBundle(order: seq<string>, abPath2IndexDic: map<string, int>, abPath: string, dependencies: seq<string>)
    returns (r: Written<seq<Token>>)
    requires |order| < TwoTo31 && abPath2IndexDic.Keys == Elems(order) && NoDup(dependencies)
    requires forall b :: b in abPath2IndexDic ==> abPath2IndexDic[b] == IndexIn(order, b)
    ensures DepIndexes(order, dependencies).KeyNotFound? ==>
      r == KeyNotFound(DepIndexes(order, dependencies).key)
    ensures DepIndexes(order, dependencies).Written? ==>
      |DepIndexes(order, dependencies).value| < TwoTo31 &&
      r == Written(EncodeBundle(BundleRecord(abPath, DepIndexes(order, dependencies).value)))
  {
    var indexTokens := WriteIndexes(order, abPath2IndexDic, dependencies);
    if indexTokens.KeyNotFound? {
      return KeyNotFound(indexTokens.key);
    }
    DistinctBound(dependencies, order);
    r := Written([StrTok(abPath), IntTok(|dependencies|)] + indexTokens.value);
  }

  /** One turn of the index loop: the index of `deps[j]`, or the key its lookup misses. */
  lemma IndexLoopStep(order: seq<string>, abPath2IndexDic: map<string, int>, deps: seq<string>, j: nat, idx: seq<int32>)
    requires |order| < TwoTo31 && abPath2IndexDic.Keys == Elems(order) && j < |deps|
    requires forall b :: b in abPath2IndexDic ==> abPath2IndexDic[b] == IndexIn(order, b)
    requires DepIndexes(order, deps) == Prefixed(idx, DepIndexes(order, deps[j..]))
    ensures deps[j] !in abPath2IndexDic ==> DepIndexes(order, deps) == KeyNotFound(deps[j])
    ensures deps[j] in abPath2IndexDic ==>
      0 <= abPath2IndexDic[deps[j]] < TwoTo31 &&
      DepIndexes(order, deps) == Prefixed(idx + [abPath2IndexDic[deps[j]] as int32], DepIndexes(order, deps[j + 1..]))
  {
    assert deps[j..][0] == deps[j] && deps[j..][1..] == deps[j + 1..];
    if deps[j] in abPath2IndexDic {
      assert deps[j] in order;
      PrefixedCons(idx, abPath2IndexDic[deps[j]] as int32, DepIndexes(order, deps[j + 1..]));
    }
  }

  /** The indices of one bundle's dependencies, each looked up in `abPath2IndexDic`. */
  method WriteIndexes(order: seq<string>, abPath2IndexDic: map<string, int>, dependencies: seq<string>)
    returns (r: Written<seq<Token>>)
    requires |order| < TwoTo31 && abPath2IndexDic.Keys == Elems(order)
    requires forall b :: b in abPath2IndexDic ==> abPath2IndexDic[b] == IndexIn(order, b)
    ensures DepIndexes(order, dependencies).Written? ==>
      r == Written(EncodeInts(DepIndexes(order, dependencies).value))
    ensures DepIndexes(order, dependencies).KeyNotFound? ==>
      r == KeyNotFound(DepIndexes(order, dependencies).key)
  {
    ghost var idx: seq<int32> := [];
    PrefixedEmpty(DepIndexes(order, dependencies));
    var tokens: seq<Token> := [];
    var j := 0;
    while j < |dependencies|
      invariant 0 <= j <= |dependencies|
      invariant DepIndexes(order, dependencies) == Prefixed(idx, DepIndexes(order, dependencies[j..]))
      invariant tokens == EncodeInts(idx)
    {
      IndexLoopStep(order, abPath2IndexDic, dependencies, j, idx);
      if dependencies[j] !in abPath2IndexDic {
        return KeyNotFound(dependencies[j]);
      }
      var index := abPath2IndexDic[dependencies[j]] as int32;
      EncodeIntsSnoc(idx, index);
      tokens := tokens + [IntTok(index)];
      idx := idx + [index];
      j := j + 1;
    }
    assert dependencies[j..] == [];
    assert idx + [] == idx;
    r := Written(tokens);
  }

  /** `tempAssetList`, bundle by bundle in `abDic`'s order. */
  method CollectAssets(editor: Editor) returns (tempAssetList: seq<AssetUnitModel>)
    requires Elems(editor.abKeys) <= editor.abDic.Keys
    ensures tempAssetList == TempAssetList(editor.State())
  {
    tempAssetList := [];
    var keys := editor.abKeys;
    var k := 0;
    while k < |keys|
      invariant 0 <= k <= |keys|
      invariant Elems(keys[k..]) <= editor.abDic.Keys
      invariant AssetsOf(editor.State(), keys[k..], tempAssetList) == TempAssetList(editor.State())
    {
      assert keys[k..][0] == keys[k] && keys[k..][1..] == keys[k + 1..];
      assert keys[k] in Elems(keys[k..]) && Elems(keys[k + 1..]) <= Elems(keys[k..]);
      var assetList := editor.abDic[keys[k]].assetList;
      ghost var before := tempAssetList;
      var n := 0;
      while n < |assetList|
        invariant 0 <= n <= |assetList|
        invariant DistinctAssets(tempAssetList, assetList[n..]) == DistinctAssets(before, assetList)
      {
        assert assetList[n..][0] == assetList[n] && assetList[n..][1..] == assetList[n + 1..];
        var assetInfo := assetList[n];
        var found := IsContains(tempAssetList, assetInfo,
          (a: AssetUnitModel, b: AssetUnitModel) => a.abPath == b.abPath && a.assetPath == b.assetPath);
        assert found <==> Listed(tempAssetList, assetInfo);
        if !found {
          tempAssetList := tempAssetList + [assetInfo];
        }
        n := n + 1;
      }
      assert assetList[n..] == [];
      k := k + 1;
    }
    assert keys[k..] == [];
  }

  /** The third pass, asset part: each asset's hash and its bundle's index. */
  method WriteAssets(order: seq<string>, abPath2IndexDic: map<string, int>, tempAssetList: seq<AssetUnitModel>)
    returns (r: Written<seq<Token>>)
    requires |order| < TwoTo31 && abPath2IndexDic.Keys == Elems(order)
    requires forall b :: b in abPath2IndexDic ==> abPath2IndexDic[b] == IndexIn(order, b)
    ensures AssetRecords(order, tempAssetList).Written? ==>
      r == Written(EncodeAssets(AssetRecords(order, tempAssetList).value))
    ensures AssetRecords(order, tempAssetList).KeyNotFound? ==>
      r == KeyNotFound(AssetRecords(order, tempAssetList).key)
  {
    ghost var recs: seq<AssetRecord> := [];
    PrefixedEmpty(AssetRecords(order, tempAssetList));
    var tokens: seq<Token> := [];
    var i := 0;
    while i < |tempAssetList|
      invariant 0 <= i <= |tempAssetList|
      invariant AssetRecords(order, tempAssetList) == Prefixed(recs, AssetRecords(order, tempAssetList[i..]))
      invariant tokens == EncodeAssets(recs)
    {
      assert tempAssetList[i..][0] == tempAssetList[i] && tempAssetList[i..][1..] == tempAssetList[i + 1..];
      var assetInfo := tempAssetList[i];
      if assetInfo.abPath !in abPath2IndexDic {
        return KeyNotFound(assetInfo.abPath);
      }
      var rec := AssetRecord(assetInfo.assetPathHash, abPath2IndexDic[assetInfo.abPath] as int32);
      PrefixedCons(recs, rec, AssetRecords(order, tempAssetList[i + 1..]));
      EncodeAssetsSnoc(recs, rec);
      tokens := tokens + [IntTok(ToInt32(assetInfo.assetPathHash)), IntTok(rec.index)];
      recs := recs + [rec];
      i := i + 1;
    }
    assert tempAssetList[i..] == [];
    assert recs + [] == recs;
    r := Written(tokens);
  }
}
