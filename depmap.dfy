/**
 * The dependency-map file that the editor writes and the runtime reads
 * (AssetBundleEditor.WriteABInfo2ByteFile, RM.ParseDependenciesMap).
 *
 * The file is a stream of BinaryWriter values; it is modelled one level up, as
 * a sequence of tokens, each either a 32-bit signed integer or a string:
 *
 *   bundleCount, { abPath, depCount, { depIndex } }, assetCount, { hash, bundleIndex }
 *
 * The reader is specified by total functions: a truncated file or a value of
 * the wrong kind stops the reader and reports `ok == false`, keeping whatever
 * the reader had already stored, as the exception thrown by the C# reader does.
 */
module DependencyMap {
  import opened Utility
  import opened BundleModel

  const TwoTo31: int := 0x8000_0000

  /** The C# `int`. */
  type int32 = x: int | -TwoTo31 <= x < TwoTo31

  /** The signed reading of a 32-bit pattern (the hash is computed unsigned, stored as `int`). */
  function ToInt32(u: uint32): (r: int32)
    ensures Wrap(r) == u
    ensures 0 <= r <==> u < TwoTo31
  {
    if u < TwoTo31 then u else u - TwoTo32
  }

  /** Reinterpreting a signed value as its bit pattern and back is the identity. */
  lemma ToInt32OfWrap(i: int32)
    ensures ToInt32(Wrap(i)) == i
  {
    if i < 0 {
      assert Wrap(i) == i + TwoTo32;
    }
  }

  datatype Token = IntTok(i: int32) | StrTok(s: string)

  /** A list whose length the writer can store as an `int`. */
  type IndexList = s: seq<int32> | |s| < TwoTo31

  /** One bundle entry of the file: its path and the indices of its dependencies. */
  datatype BundleRecord = BundleRecord(abPath: string, depIndexs: IndexList)

  /** One asset entry: the hash of the asset's name and the index of its bundle. */
  datatype AssetRecord = AssetRecord(hash: uint32, index: int32)

  datatype MapFile = MapFile(bundles: seq<BundleRecord>, assets: seq<AssetRecord>)

  /** Every count written to the file fits an `int`. */
  predicate Fits(f: MapFile)
  {
    |f.bundles| < TwoTo31 && |f.assets| < TwoTo31
  }

  // ---------------------------------------------------------------- writer

  function EncodeInts(xs: seq<int32>): (r: seq<Token>)
    ensures |r| == |xs|
  {
    if xs == [] then [] else [IntTok(xs[0])] + EncodeInts(xs[1..])
  }

  function EncodeBundle(b: BundleRecord): (r: seq<Token>)
  {
    [StrTok(b.abPath), IntTok(|b.depIndexs|)] + EncodeInts(b.depIndexs)
  }

  function EncodeBundles(bs: seq<BundleRecord>): (r: seq<Token>)
  {
    if bs == [] then [] else EncodeBundle(bs[0]) + EncodeBundles(bs[1..])
  }

  function EncodeAssets(assets: seq<AssetRecord>): (r: seq<Token>)
  {
    if assets == [] then []
    else [IntTok(ToInt32(assets[0].hash)), IntTok(assets[0].index)] + EncodeAssets(assets[1..])
  }

  /** The whole file, in the order WriteABInfo2ByteFile writes it. */
  function Encode(f: MapFile): seq<Token>
    requires Fits(f)
  {
    [IntTok(|f.bundles|)] + EncodeBundles(f.bundles) + [IntTok(|f.assets|)] + EncodeAssets(f.assets)
  }

  // ---------------------------------------------------------------- reader

  datatype Ints = Ints(vals: seq<int32>, rest: seq<Token>, ok: bool)
  datatype Bundles = Bundles(models: seq<ABUnitModel>, rest: seq<Token>, ok: bool)
  datatype Assets = Assets(hash2Index: map<uint32, int32>, rest: seq<Token>, ok: bool)
  datatype Parsed = Parsed(models: seq<ABUnitModel>, hash2Index: map<uint32, int32>, ok: bool)

  /** Reads `n` integers (none when `n` is not positive). */
  function ReadInts(toks: seq<Token>, n: int): (r: Ints)
    ensures r.ok ==> |r.vals| == if n < 0 then 0 else n
    ensures |r.rest| <= |toks|
    decreases n
  {
    if n <= 0 then Ints([], toks, true)
    else if toks == [] || !toks[0].IntTok? then Ints([], toks, false)
    else
      var r := ReadInts(toks[1..], n - 1);
      Ints([toks[0].i] + r.vals, r.rest, r.ok)
  }

  /** The model the reader builds for one bundle entry: `new ABUnitModel("", abPath)` plus the indices. */
  function ParsedModel(abPath: string, deps: seq<int32>): (m: ABUnitModel)
    ensures m.abPath == abPath && m.depIndexs == deps
    ensures m.assetList == [NewAssetUnitModel("", abPath)]
  {
    NewABUnitModel("", abPath).(depIndexs := deps)
  }

  /**
   * Reads `n` bundle entries. A model is kept only once all its indices were
   * read: the reader adds it to the list after its inner loop.
   */
  function ReadBundles(toks: seq<Token>, n: int): (r: Bundles)
    ensures r.ok ==> |r.models| == if n < 0 then 0 else n
    decreases n
  {
    if n <= 0 then Bundles([], toks, true)
    else if toks == [] || !toks[0].StrTok? then Bundles([], toks, false)
    else if |toks| < 2 || !toks[1].IntTok? then Bundles([], toks[1..], false)
    else
      var deps := ReadInts(toks[2..], toks[1].i);
      if !deps.ok then Bundles([], deps.rest, false)
      else
        var r := ReadBundles(deps.rest, n - 1);
        Bundles([ParsedModel(toks[0].s, deps.vals)] + r.models, r.rest, r.ok)
  }

  /** Adds a key unless it is already present: the first entry for a hash wins. */
  function AddFirst(index: map<uint32, int32>, key: uint32, value: int32): map<uint32, int32>
  {
    if key in index then index else index[key := value]
  }

  /** Reads `n` (hash, bundle index) pairs into the table. */
  function ReadAssets(toks: seq<Token>, n: int, index: map<uint32, int32>): (r: Assets)
    decreases n
  {
    if n <= 0 then Assets(index, toks, true)
    else if toks == [] || !toks[0].IntTok? then Assets(index, toks, false)
    else if |toks| < 2 || !toks[1].IntTok? then Assets(index, toks[1..], false)
    else ReadAssets(toks[2..], n - 1, AddFirst(index, Wrap(toks[0].i), toks[1].i))
  }

  /** ParseDependenciesMap on a stream, appending to the models and table already held. */
  function Parse(toks: seq<Token>, models: seq<ABUnitModel>, index: map<uint32, int32>): (r: Parsed)
    ensures models <= r.models
    ensures index.Keys <= r.hash2Index.Keys
  {
    if toks == [] || !toks[0].IntTok? then Parsed(models, index, false)
    else
      var b := ReadBundles(toks[1..], toks[0].i);
      var models' := models + b.models;
      if !b.ok then Parsed(models', index, false)
      else if b.rest == [] || !b.rest[0].IntTok? then Parsed(models', index, false)
      else
        var a := ReadAssets(b.rest[1..], b.rest[0].i, index);
        ReadAssetsKeepsKeys(b.rest[1..], b.rest[0].i, index);
        Parsed(models', a.hash2Index, a.ok)
  }

  lemma {:induction false} ReadAssetsKeepsKeys(toks: seq<Token>, n: int, index: map<uint32, int32>)
    ensures index.Keys <= ReadAssets(toks, n, index).hash2Index.Keys
    ensures forall k :: k in index ==> ReadAssets(toks, n, index).hash2Index[k] == index[k]
    decreases n
  {
    if n > 0 && toks != [] && toks[0].IntTok? && |toks| >= 2 && toks[1].IntTok? {
      ReadAssetsKeepsKeys(toks[2..], n - 1, AddFirst(index, Wrap(toks[0].i), toks[1].i));
    }
  }

  // ---------------------------------------------------------------- meaning

  /** The models the runtime should hold for the bundle entries of a file. */
  function ModelsOf(bs: seq<BundleRecord>): (r: seq<ABUnitModel>)
    ensures |r| == |bs|
    ensures forall i :: 0 <= i < |bs| ==> r[i] == ParsedModel(bs[i].abPath, bs[i].depIndexs)
  {
    if bs == [] then [] else [ParsedModel(bs[0].abPath, bs[0].depIndexs)] + ModelsOf(bs[1..])
  }

  /** The asset table an entry list denotes when earlier entries win. */
  function FirstWins(assets: seq<AssetRecord>, index: map<uint32, int32>): map<uint32, int32>
  {
    if assets == [] then index
    else FirstWins(assets[1..], AddFirst(index, assets[0].hash, assets[0].index))
  }

  /** Position of the first entry carrying a hash. */
  predicate FirstWith(assets: seq<AssetRecord>, k: uint32, i: int)
  {
    0 <= i < |assets| && assets[i].hash == k &&
    forall j :: 0 <= j < i ==> assets[j].hash != k
  }

  /**
   * FirstWins keeps every key already present with its value, adds exactly the
   * hashes of the entries, and maps a new hash to the index of its first entry.
   */
  lemma {:induction false} FirstWinsMeaning(assets: seq<AssetRecord>, index: map<uint32, int32>, k: uint32)
    ensures k in FirstWins(assets, index) <==>
      k in index || exists i :: 0 <= i < |assets| && assets[i].hash == k
    ensures k in index ==> FirstWins(assets, index)[k] == index[k]
    ensures forall i :: k !in index && FirstWith(assets, k, i) ==>
      FirstWins(assets, index)[k] == assets[i].index
  {
    if assets != [] {
      var index' := AddFirst(index, assets[0].hash, assets[0].index);
      FirstWinsMeaning(assets[1..], index', k);
      if exists i :: 0 <= i < |assets| && assets[i].hash == k {
        var i :| 0 <= i < |assets| && assets[i].hash == k;
        if i > 0 {
          assert assets[1..][i - 1].hash == k;
        }
      }
      forall i | k !in index && FirstWith(assets, k, i)
        ensures FirstWins(assets, index)[k] == assets[i].index
      {
        if i > 0 {
          assert FirstWith(assets[1..], k, i - 1);
        }
      }
    }
  }

  // ---------------------------------------------------------------- round trip

  lemma {:induction false} ReadEncodedInts(xs: seq<int32>, rest: seq<Token>)
    ensures ReadInts(EncodeInts(xs) + rest, |xs|) == Ints(xs, rest, true)
  {
    if xs != [] {
      assert (EncodeInts(xs) + rest)[1..] == EncodeInts(xs[1..]) + rest;
      ReadEncodedInts(xs[1..], rest);
      assert [xs[0]] + xs[1..] == xs;
    }
  }

  /** The tokens of a non-empty bundle list: the first entry's header, its indices, then the others. */
  lemma EncodeBundlesHead(bs: seq<BundleRecord>, rest: seq<Token>)
    requires bs != []
    ensures EncodeBundles(bs) + rest ==
      [StrTok(bs[0].abPath), IntTok(|bs[0].depIndexs|)] + (EncodeInts(bs[0].depIndexs) + (EncodeBundles(bs[1..]) + rest))
  {
    var head := [StrTok(bs[0].abPath), IntTok(|bs[0].depIndexs|)];
    var e := EncodeInts(bs[0].depIndexs);
    var t := EncodeBundles(bs[1..]);
    assert EncodeBundles(bs) == head + e + t;
    Regroup(head, e, t, rest);
  }

  lemma Regroup<T>(a: seq<T>, b: seq<T>, c: seq<T>, d: seq<T>)
    ensures a + b + c + d == a + (b + (c + d))
  {
  }

  lemma DropHead<T>(head: seq<T>, t: seq<T>)
    ensures (head + t)[..|head|] == head && (head + t)[|head|..] == t
  {
  }

  lemma {:induction false} ReadEncodedBundles(bs: seq<BundleRecord>, rest: seq<Token>)
    requires |bs| < TwoTo31
    ensures ReadBundles(EncodeBundles(bs) + rest, |bs|) == Bundles(ModelsOf(bs), rest, true)
  {
    if bs != [] {
      var tail := EncodeBundles(bs[1..]) + rest;
      EncodeBundlesHead(bs, rest);
      DropHead([StrTok(bs[0].abPath), IntTok(|bs[0].depIndexs|)], EncodeInts(bs[0].depIndexs) + tail);
      ReadEncodedInts(bs[0].depIndexs, tail);
      ReadEncodedBundles(bs[1..], rest);
    }
  }

  lemma {:induction false} ReadEncodedAssets(assets: seq<AssetRecord>, rest: seq<Token>, index: map<uint32, int32>)
    requires |assets| < TwoTo31
    ensures ReadAssets(EncodeAssets(assets) + rest, |assets|, index) == Assets(FirstWins(assets, index), rest, true)
  {
    if assets != [] {
      var head := [IntTok(ToInt32(assets[0].hash)), IntTok(assets[0].index)];
      var toks := EncodeAssets(assets) + rest;
      assert toks == head + (EncodeAssets(assets[1..]) + rest);
      assert toks[0] == head[0] && toks[1] == head[1];
      assert toks[2..] == EncodeAssets(assets[1..]) + rest;
      assert Wrap(toks[0].i) == assets[0].hash;
      ReadEncodedAssets(assets[1..], rest, AddFirst(index, assets[0].hash, assets[0].index));
    }
  }

  /**
   * Reading what the editor writes gives back one model per bundle entry, with
   * its dependency indices in order, and the first-wins asset table.
   */
  lemma RoundTrip(f: MapFile)
    requires Fits(f)
    ensures Parse(Encode(f), [], map[]) == Parsed(ModelsOf(f.bundles), FirstWins(f.assets, map[]), true)
  {
    var toks := Encode(f);
    var after := [IntTok(|f.assets|)] + EncodeAssets(f.assets);
    assert toks[0] == IntTok(|f.bundles|);
    assert toks[1..] == EncodeBundles(f.bundles) + after;
    ReadEncodedBundles(f.bundles, after);
    assert after[1..] == EncodeAssets(f.assets) + [];
    ReadEncodedAssets(f.assets, [], map[]);
    ParseWhole(toks, ModelsOf(f.bundles), after);
  }

  /** Parse on a stream whose bundle part reads completely and is followed by a count. */
  lemma ParseWhole(toks: seq<Token>, ms: seq<ABUnitModel>, after: seq<Token>)
    requires toks != [] && toks[0].IntTok? && ReadBundles(toks[1..], toks[0].i) == Bundles(ms, after, true)
    requires after != [] && after[0].IntTok?
    ensures var a := ReadAssets(after[1..], after[0].i, map[]);
      Parse(toks, [], map[]) == Parsed(ms, a.hash2Index, a.ok)
  {
    assert [] + ms == ms;
  }
}
