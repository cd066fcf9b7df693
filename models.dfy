/**
 * The bundle and asset data models of the runtime (RM.cs: ABUnitModel,
 * AssetUnitModel), shared by the build side and the loader.
 *
 * An ABUnitModel is only ever owned by one dictionary entry or list slot, so
 * it is modelled as a value: its two mutators return the updated model and
 * their callers store it back.
 */
module BundleModel {
  import opened Utility

  /** One asset inside a bundle; the name and its hash are derived from the path. */
  datatype AssetUnitModel = AssetUnitModel(
    assetPath: string,
    assetPathHash: uint32,
    abPath: string,
    assetName: string)

  /** The AssetUnitModel constructor: derives the logical name and its case-insensitive hash. */
  function NewAssetUnitModel(assetPath: string, abPath: string): (m: AssetUnitModel)
    ensures m.assetPath == assetPath && m.abPath == abPath
    ensures '.' !in m.assetName && m.assetName <= Replace(assetPath, "Assets/", "")
    ensures m.assetPathHash == Hash(ToLowerAscii(m.assetName))
  {
    var name := ConvertAssetPath2AssetName(assetPath);
    AssetUnitModel(assetPath, Hash(ToLowerAscii(name)), abPath, name)
  }

  /** The equality `IsContains` is called with: same bundle path and same asset path. */
  predicate SamePair(a: AssetUnitModel, b: AssetUnitModel)
  {
    a.abPath == b.abPath && a.assetPath == b.assetPath
  }

  /** No two entries of the list share a (bundle path, asset path) pair. */
  predicate UniquePairs(list: seq<AssetUnitModel>)
  {
    forall i, j :: 0 <= i < j < |list| ==> !SamePair(list[i], list[j])
  }

  predicate HasPair(list: seq<AssetUnitModel>, abPath: string, assetPath: string)
  {
    exists k :: 0 <= k < |list| && list[k].abPath == abPath && list[k].assetPath == assetPath
  }

  /** A bundle: its path, variant, dependency indices (in file order) and member assets. */
  datatype ABUnitModel = ABUnitModel(
    abVariant: string,
    abPath: string,
    depIndexs: seq<int>,
    assetList: seq<AssetUnitModel>)
  {
    /** `AddDependenciesIndex`: append one index. */
    function AddDependenciesIndex(index: int): (r: ABUnitModel)
      ensures r.abPath == abPath && r.abVariant == abVariant && r.assetList == assetList
      ensures |r.depIndexs| == |depIndexs| + 1
      ensures r.depIndexs[..|depIndexs|] == depIndexs && r.depIndexs[|depIndexs|] == index
    {
      this.(depIndexs := depIndexs + [index])
    }

    /**
     * `AddAsset`: ignore an empty path; otherwise append the new entry unless
     * an entry with the same (bundle path, asset path) pair is already there.
     */
    function AddAsset(assetPath: string, abPath': string): (r: ABUnitModel)
      ensures r.abPath == abPath && r.abVariant == abVariant && r.depIndexs == depIndexs
      ensures assetPath == "" ==> r == this
      ensures assetList <= r.assetList && |r.assetList| <= |assetList| + 1
      ensures assetPath != "" ==> HasPair(r.assetList, abPath', assetPath)
      ensures HasPair(assetList, abPath', assetPath) ==> r == this
      ensures |r.assetList| == |assetList| + 1 ==>
        r.assetList[|assetList|] == NewAssetUnitModel(assetPath, abPath')
      ensures UniquePairs(assetList) ==> UniquePairs(r.assetList)
    {
      if assetPath == "" then this
      else
        var entry := NewAssetUnitModel(assetPath, abPath');
        if exists v :: v in assetList && SamePair(entry, v) then this
        else
          var list := assetList + [entry];
          assert list[|assetList|] == entry;
          assert forall i :: 0 <= i < |assetList| ==> assetList[i] in assetList;
          assert forall i :: 0 <= i < |assetList| ==> list[i] == assetList[i] && !SamePair(list[i], entry);
          this.(assetList := list)
    }
  }

  /** The ABUnitModel constructor: a bundle holding one entry for the given asset path. */
  function NewABUnitModel(assetPath: string, abPath: string): (m: ABUnitModel)
    ensures m.abPath == abPath && m.abVariant == "" && m.depIndexs == []
    ensures m.assetList == [NewAssetUnitModel(assetPath, abPath)]
    ensures UniquePairs(m.assetList)
  {
    ABUnitModel("", abPath, [], [NewAssetUnitModel(assetPath, abPath)])
  }

  /** Adding the same asset twice is the same as adding it once. */
  lemma AddAssetIdempotent(m: ABUnitModel, assetPath: string, abPath': string)
    ensures m.AddAsset(assetPath, abPath').AddAsset(assetPath, abPath') == m.AddAsset(assetPath, abPath')
  {
  }
}
