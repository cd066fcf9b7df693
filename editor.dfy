/**
 * The build-side half of the bundle system (Editor/AssetBundleEditor.cs):
 * assigning bundle names to assets, collecting each asset's dependencies and
 * writing the dependency map the runtime reads.
 *
 * What the editor asks Unity and the file system is an `AssetDb` parameter.
 * `Dictionary` and `HashSet` values that are only ever added to enumerate in
 * insertion order, so each is modelled as a duplicate-free sequence of keys
 * (plus a map for a dictionary's values).
 */
module BundleEditor {
  import opened Utility
  import opened BundleModel
  import opened DependencyMap

  // ---------------------------------------------------------------- environment

  /**
   * The asset database as the editor sees it. A path missing from a map is one
   * for which Unity returns null or an empty array.
   */
  datatype AssetDb = AssetDb(
    /** `AssetDatabase.GetDependencies(path)`: the recursive form. */
    dependencies: map<string, seq<string>>,
    /** `AssetDatabase.GetDependencies(path, false)`: direct references only. */
    directDependencies: map<string, seq<string>>,
    /** Paths for which `File.Exists(Path.GetFullPath(path))` holds. */
    files: set<string>,
    /** Paths for which `AssetImporter.GetAtPath(path)` is not null. */
    importers: set<string>)

  /**
   * Unity only hands out importers for project paths, which have a folder
   * part. The scan relies on it; the registration walk does not, and throws
   * where the source would.
   */
  predicate DbOk(db: AssetDb)
  {
    forall p :: p in db.importers ==> '/' in p
  }

  function Deps(db: AssetDb, p: string): seq<string>
  {
    if p in db.dependencies then db.dependencies[p] else []
  }

  function DirectDeps(db: AssetDb, p: string): seq<string>
  {
    if p in db.directDependencies then db.directDependencies[p] else []
  }

  function Elems<T>(s: seq<T>): set<T>
  {
    set x | x in s
  }

  // ---------------------------------------------------------------- path filter

  predicate StartsWith(s: string, prefix: string)
  {
    prefix <= s
  }

  predicate EndsWith(s: string, suffix: string)
  {
    |suffix| <= |s| && s[|s| - |suffix|..] == suffix
  }

  /** `string.Contains`: `t` occurs somewhere in `s`. */
  predicate Contains(s: string, t: string)
  {
    t <= s || (s != [] && Contains(s[1..], t))
  }

  /** A string contains whatever sits inside it. */
  lemma {:induction false} ContainsInfix(a: string, t: string, b: string)
    ensures Contains(a + t + b, t)
  {
    if a == [] {
      assert a + t + b == t + b;
    } else {
      assert (a + t + b)[1..] == a[1..] + t + b;
      ContainsInfix(a[1..], t, b);
    }
  }

  /** A contained string sits inside it. */
  lemma {:induction false} ContainsSplits(s: string, t: string)
    requires Contains(s, t)
    ensures exists a, b :: s == a + t + b
  {
    if t <= s {
      assert s == [] + t + s[|t|..];
    } else {
      ContainsSplits(s[1..], t);
      var a, b :| s[1..] == a + t + b;
      assert s == [s[0]] + a + t + b;
    }
  }

  /**
   * `IsAssetPathIllegality`: despite its name, true for a path the editor
   * accepts: not a script or meta file, not under Assets/Plugins and not
   * mentioning Scripts or Packages anywhere.
   */
  predicate IsAssetPathIllegality(assetPath: string)
  {
    !(EndsWith(assetPath, ".cs") || EndsWith(assetPath, ".meta") ||
      StartsWith(assetPath, "Assets/Plugins") ||
      Contains(assetPath, "Scripts") || Contains(assetPath, "Packages"))
  }

  /** The forms the filter rejects, whatever surrounds them. */
  lemma RejectedForms(p: string, a: string, b: string)
    ensures !IsAssetPathIllegality(p + ".cs")
    ensures !IsAssetPathIllegality(p + ".meta")
    ensures !IsAssetPathIllegality("Assets/Plugins" + p)
    ensures !IsAssetPathIllegality(a + "Scripts" + b)
    ensures !IsAssetPathIllegality(a + "Packages" + b)
  {
    ContainsInfix(a, "Scripts", b);
    ContainsInfix(a, "Packages", b);
  }

  /** An accepted path contains neither word at any position. */
  lemma AcceptedHasNoInfix(s: string)
    requires IsAssetPathIllegality(s)
    ensures forall a, b :: s != a + "Scripts" + b && s != a + "Packages" + b
  {
    forall a, b ensures s != a + "Scripts" + b && s != a + "Packages" + b {
      ContainsInfix(a, "Scripts", b);
      ContainsInfix(a, "Packages", b);
    }
  }

  // ---------------------------------------------------------------- GetDependenciesRecursive

  /** Every path the database names as some asset's dependency. */
  function Known(db: AssetDb): set<string>
  {
    set p, d | p in db.dependencies && d in db.dependencies[p] :: d
  }

  lemma DepsAreKnown(db: AssetDb, p: string)
    ensures Elems(Deps(db, p)) <= Known(db)
  {
  }

  /** The dependencies a result set can still gain: what bounds the recursion. */
  function Unvisited(db: AssetDb, rs: seq<string>): set<string>
  {
    Known(db) - Elems(rs)
  }

  lemma SubsetCard<T>(a: set<T>, b: set<T>)
    requires a <= b
    ensures |a| <= |b|
  {
    if a != {} {
      var x :| x in a;
      SubsetCard(a - {x}, b - {x});
    }
  }

  lemma UnvisitedShrinks(db: AssetDb, rs: seq<string>, r: seq<string>)
    requires rs <= r
    ensures |Unvisited(db, r)| <= |Unvisited(db, rs)|
  {
    assert Unvisited(db, r) <= Unvisited(db, rs);
    SubsetCard(Unvisited(db, r), Unvisited(db, rs));
  }

  lemma UnvisitedDrops(db: AssetDb, rs: seq<string>, d: string)
    requires d in Known(db) && d !in rs
    ensures |Unvisited(db, rs + [d])| < |Unvisited(db, rs)|
  {
    assert Unvisited(db, rs + [d]) == Unvisited(db, rs) - {d};
  }

  /**
   * `r` is `rs` with paths added at the end, each accepted by the filter and
   * named by the database, and never one already there.
   */
  predicate Extends(db: AssetDb, rs: seq<string>, r: seq<string>)
  {
    rs <= r && (NoDup(rs) ==> NoDup(r)) &&
    forall i :: |rs| <= i < |r| ==> IsAssetPathIllegality(r[i]) && r[i] in Known(db)
  }

  lemma ExtendsTrans(db: AssetDb, a: seq<string>, b: seq<string>, c: seq<string>)
    requires Extends(db, a, b) && Extends(db, b, c)
    ensures Extends(db, a, c)
  {
  }

  lemma ExtendsOne(db: AssetDb, rs: seq<string>, d: string)
    requires IsAssetPathIllegality(d) && d in Known(db) && d !in rs
    ensures Extends(db, rs, rs + [d])
  {
  }

  /**
   * `GetDependenciesRecursive(assetPath, resultSet)` as a value: the result
   * set after the call, the set before it being `rs`.
   */
  function DepsRec(db: AssetDb, p: string, rs: seq<string>): (r: seq<string>)
    ensures Extends(db, rs, r)
    decreases |Unvisited(db, rs)|, 1, 0
  {
    DepsAreKnown(db, p);
    DepsLoop(db, p, Deps(db, p), rs)
  }

  /** The `foreach` over the dependencies of `p` still to visit. */
  function DepsLoop(db: AssetDb, p: string, list: seq<string>, rs: seq<string>): (r: seq<string>)
    requires Elems(list) <= Known(db)
    ensures Extends(db, rs, r)
    decreases |Unvisited(db, rs)|, 0, |list|
  {
    if list == [] then rs
    else
      var d := list[0];
      assert d in Elems(list);
      assert Elems(list[1..]) <= Elems(list);
      if IsAssetPathIllegality(d) && d !in rs then
        var rs1 := rs + [d];
        UnvisitedDrops(db, rs, d);
        ExtendsOne(db, rs, d);
        var rs2 := if d != p then DepsRec(db, d, rs1) else rs1;
        ExtendsTrans(db, rs, rs1, rs2);
        UnvisitedShrinks(db, rs, rs2);
        var r := DepsLoop(db, p, list[1..], rs2);
        ExtendsTrans(db, rs, rs2, r);
        r
      else
        DepsLoop(db, p, list[1..], rs)
  }

  /** One turn of the loop: skip the next path, or add it and descend into it. */
  lemma DepsLoopStep(db: AssetDb, p: string, list: seq<string>, rs: seq<string>)
    requires Elems(list) <= Known(db) && list != []
    ensures Elems(list[1..]) <= Known(db)
    ensures !(IsAssetPathIllegality(list[0]) && list[0] !in rs) ==>
      DepsLoop(db, p, list, rs) == DepsLoop(db, p, list[1..], rs)
    ensures IsAssetPathIllegality(list[0]) && list[0] !in rs && list[0] == p ==>
      DepsLoop(db, p, list, rs) == DepsLoop(db, p, list[1..], rs + [p])
    ensures IsAssetPathIllegality(list[0]) && list[0] !in rs && list[0] != p ==>
      DepsLoop(db, p, list, rs) == DepsLoop(db, p, list[1..], DepsRec(db, list[0], rs + [list[0]]))
  {
    assert Elems(list[1..]) <= Elems(list);
  }

  /** `GetDependenciesRecursive`: the result set is the caller's set, passed by reference. */
  method GetDependenciesRecursive(db: AssetDb, assetPath: string, resultSet: seq<string>)
    returns (result: seq<string>)
    ensures result == DepsRec(db, assetPath, resultSet)
    decreases |Unvisited(db, resultSet)|
  {
    var dependencies := Deps(db, assetPath);
    result := resultSet;
    if |dependencies| == 0 {
      return;
    }
    DepsAreKnown(db, assetPath);
    var i := 0;
    while i < |dependencies|
      invariant 0 <= i <= |dependencies|
      invariant Elems(dependencies[i..]) <= Known(db)
      invariant resultSet <= result
      invariant DepsLoop(db, assetPath, dependencies[i..], result) == DepsLoop(db, assetPath, dependencies, resultSet)
    {
      var depAssetPath := dependencies[i];
      assert dependencies[i..][1..] == dependencies[i + 1..];
      assert depAssetPath in Elems(dependencies[i..]);
      DepsLoopStep(db, assetPath, dependencies[i..], result);
      if IsAssetPathIllegality(depAssetPath) && depAssetPath !in result {
        UnvisitedShrinks(db, resultSet, result);
        UnvisitedDrops(db, result, depAssetPath);
        result := result + [depAssetPath];
        if depAssetPath != assetPath {
          result := GetDependenciesRecursive(db, depAssetPath, result);
        }
      }
      i := i + 1;
    }
  }

  /** Every dependency of `y` that passes the filter is in `r`. */
  predicate Covers(db: AssetDb, r: seq<string>, y: string)
  {
    forall x :: x in Deps(db, y) && IsAssetPathIllegality(x) ==> x in r
  }

  /** Every path added after `rs`, other than `p`, has its dependencies in `r`. */
  predicate NewCovered(db: AssetDb, rs: seq<string>, r: seq<string>, p: string)
  {
    forall i :: |rs| <= i < |r| && r[i] != p ==> Covers(db, r, r[i])
  }

  lemma CoversGrows(db: AssetDb, r: seq<string>, r': seq<string>, y: string)
    requires r <= r' && Covers(db, r, y)
    ensures Covers(db, r', y)
  {
    forall x | x in Deps(db, y) && IsAssetPathIllegality(x) ensures x in r' {
      var k :| 0 <= k < |r| && r[k] == x;
      assert r'[k] == x;
    }
  }

  lemma {:induction false} LoopCovers(db: AssetDb, p: string, list: seq<string>, rs: seq<string>)
    requires Elems(list) <= Known(db)
    ensures forall x :: x in list && IsAssetPathIllegality(x) ==> x in DepsLoop(db, p, list, rs)
    ensures NewCovered(db, rs, DepsLoop(db, p, list, rs), p)
    decreases |Unvisited(db, rs)|, 0, |list|
  {
    if list != [] {
      var d := list[0];
      assert d in Elems(list);
      assert Elems(list[1..]) <= Elems(list);
      var r := DepsLoop(db, p, list, rs);
      if IsAssetPathIllegality(d) && d !in rs {
        var rs1 := rs + [d];
        UnvisitedDrops(db, rs, d);
        var rs2 := if d != p then DepsRec(db, d, rs1) else rs1;
        UnvisitedShrinks(db, rs, rs2);
        assert r == DepsLoop(db, p, list[1..], rs2);
        LoopCovers(db, p, list[1..], rs2);
        assert rs1 <= rs2 <= r;
        assert r[|rs|] == d;
        if d != p {
          RecCovers(db, d, rs1);
          RecCoveredInLoop(db, rs, d, rs2, r, p);
        }
      } else {
        LoopCovers(db, p, list[1..], rs);
      }
    }
  }

  /** What the walk from `d` covered stays covered after the rest of the loop. */
  lemma RecCoveredInLoop(db: AssetDb, rs: seq<string>, d: string, rs2: seq<string>, r: seq<string>, p: string)
    requires rs + [d] <= rs2 <= r
    requires Covers(db, rs2, d)
    requires forall i :: |rs| + 1 <= i < |rs2| ==> Covers(db, rs2, rs2[i])
    requires NewCovered(db, rs2, r, p)
    ensures NewCovered(db, rs, r, p)
  {
    forall i | |rs| <= i < |r| && r[i] != p ensures Covers(db, r, r[i]) {
      if i < |rs2| {
        assert r[i] == rs2[i];
        if i == |rs| {
          assert rs2[i] == (rs + [d])[i] == d;
        }
        CoversGrows(db, rs2, r, r[i]);
      }
    }
  }

  lemma {:induction false} RecCovers(db: AssetDb, p: string, rs: seq<string>)
    ensures Covers(db, DepsRec(db, p, rs), p)
    ensures forall i :: |rs| <= i < |DepsRec(db, p, rs)| ==> Covers(db, DepsRec(db, p, rs), DepsRec(db, p, rs)[i])
    decreases |Unvisited(db, rs)|, 1, 0
  {
    DepsAreKnown(db, p);
    LoopCovers(db, p, Deps(db, p), rs);
  }

  /**
   * What `GetDependenciesRecursive(assetPath, new HashSet)` collects: only
   * accepted paths, each once; every accepted dependency of the asset and of
   * every collected path is itself collected.
   */
  lemma DependencyClosure(db: AssetDb, assetPath: string)
    ensures var r := DepsRec(db, assetPath, []);
      NoDup(r) && (forall i :: 0 <= i < |r| ==> IsAssetPathIllegality(r[i])) &&
      Covers(db, r, assetPath) && forall y :: y in r ==> Covers(db, r, y)
  {
    RecCovers(db, assetPath, []);
  }

  /** A string only contains text whose first character it has. */
  lemma {:induction false} ContainsHead(s: string, t: string)
    requires t != [] && Contains(s, t)
    ensures t[0] in s
  {
    if !(t <= s) {
      ContainsHead(s[1..], t);
    }
  }

  /** A path with no capital S or P and no excluded ending passes the filter. */
  lemma AcceptedWithoutCapitals(s: string)
    requires 'S' !in s && 'P' !in s
    requires !EndsWith(s, ".cs") && !EndsWith(s, ".meta")
    ensures IsAssetPathIllegality(s)
  {
    if Contains(s, "Scripts") {
      ContainsHead(s, "Scripts");
    }
    if Contains(s, "Packages") {
      ContainsHead(s, "Packages");
    }
    if |s| >= 8 {
      assert s[7] != 'P';
    }
  }

  /**
   * Two assets that depend on each other: the result set stops the
   * recursion, and each is collected once, in the order first met.
   */
  lemma MutualDependencyVisitsEachOnce(a: string, b: string)
    requires a != b && IsAssetPathIllegality(a) && IsAssetPathIllegality(b)
    ensures var db := AssetDb(map[a := [a, b], b := [b, a]], map[], {}, {});
      DepsRec(db, a, []) == [a, b]
  {
    var db := AssetDb(map[a := [a, b], b := [b, a]], map[], {}, {});
    assert Deps(db, a) == [a, b] && Deps(db, b) == [b, a];
    DepsAreKnown(db, a);
    DepsAreKnown(db, b);
    DepsLoopStep(db, a, [a, b], []);
    assert [a, b][1..] == [b] && [b, a][1..] == [a];
    DepsLoopStep(db, a, [b], [a]);
    assert [] + [a] == [a] && [a] + [b] == [a, b];
    DepsLoopStep(db, b, [b, a], [a, b]);
    DepsLoopStep(db, b, [a], [a, b]);
    assert DepsRec(db, b, [a, b]) == DepsLoop(db, b, [], [a, b]) == [a, b];
    assert DepsRec(db, a, []) == DepsLoop(db, a, [b], [a]) == DepsLoop(db, a, [], [a, b]);
  }

  // ---------------------------------------------------------------- SetABNameByAssetPath

  /**
   * The editor's static state: `abDic` (bundle path to model) as its keys in
   * insertion order plus the map, and the bundle name each asset importer was
   * given (`assetImporter.assetBundleName`).
   */
  datatype EditorState = EditorState(
    abKeys: seq<string>,
    abDic: map<string, ABUnitModel>,
    bundleNames: map<string, string>)

  /**
   * What a call returns, or the exception that ends it: a recursion deeper
   * than the stack allows, or `Substring(0, -1)` on an importer path without
   * a '/' (the conversion to a bundle path).
   */
  datatype Outcome = Returned(ok: bool) | Threw(e: Exception)

  datatype Exception = StackOverflow | ArgumentOutOfRange

  datatype SetStep = SetStep(st: EditorState, outcome: Outcome)

  /** The three checks before the importer is looked up. */
  predicate Accepted(db: AssetDb, assetPath: string)
  {
    IsAssetPathIllegality(assetPath) && assetPath in db.files && ' ' !in assetPath
  }

  /** Adds the asset to the bundle of its folder, creating the bundle on first use, and names the importer. */
  function Register(st: EditorState, assetPath: string): EditorState
    requires '/' in assetPath
  {
    var abPath := ConvertAssetPath2ABPath(assetPath);
    var st1 :=
      if abPath in st.abDic then st.(abDic := st.abDic[abPath := st.abDic[abPath].AddAsset(assetPath, abPath)])
      else st.(abKeys := st.abKeys + [abPath], abDic := st.abDic[abPath := NewABUnitModel(assetPath, abPath)]);
    st1.(bundleNames := st.bundleNames[assetPath := abPath])
  }

  /** An entry of bundle `k`: an importable asset of that folder, whose importer carries the name `k`. */
  predicate EntryOk(db: AssetDb, st: EditorState, k: string, a: AssetUnitModel)
  {
    a.assetPath in db.importers && '/' in a.assetPath &&
    ConvertAssetPath2ABPath(a.assetPath) == k && a == NewAssetUnitModel(a.assetPath, k) &&
    a.assetPath in st.bundleNames && st.bundleNames[a.assetPath] == k
  }

  /** A bundle as the editor builds it: keyed by its own path, no variant, no indices, entries unique. */
  predicate BundleOk(db: AssetDb, st: EditorState, k: string, m: ABUnitModel)
  {
    m.abPath == k && m.abVariant == "" && m.depIndexs == [] && m.assetList != [] &&
    UniquePairs(m.assetList) &&
    forall i :: 0 <= i < |m.assetList| ==> EntryOk(db, st, k, m.assetList[i])
  }

  /** The invariant of the editor's state between calls. */
  predicate EditorOk(db: AssetDb, st: EditorState)
  {
    NoDup(st.abKeys) && Elems(st.abKeys) == st.abDic.Keys &&
    forall k :: k in st.abDic ==> BundleOk(db, st, k, st.abDic[k])
  }

  /** The asset has an entry in the bundle of its folder. */
  predicate Registered(st: EditorState, assetPath: string)
  {
    '/' in assetPath &&
    var k := ConvertAssetPath2ABPath(assetPath);
    k in st.abDic && HasPair(st.abDic[k].assetList, k, assetPath)
  }

  /** Nothing is ever removed: bundles, their entries and importer names only accumulate. */
  predicate Grows(st: EditorState, st': EditorState)
  {
    st.abKeys <= st'.abKeys && st.bundleNames.Keys <= st'.bundleNames.Keys &&
    forall k :: k in st.abDic ==> k in st'.abDic && st.abDic[k].assetList <= st'.abDic[k].assetList
  }

  lemma GrowsTrans(a: EditorState, b: EditorState, c: EditorState)
    requires Grows(a, b) && Grows(b, c)
    ensures Grows(a, c)
  {
  }

  lemma RegisteredGrows(st: EditorState, st': EditorState, assetPath: string)
    requires Registered(st, assetPath) && Grows(st, st')
    ensures Registered(st', assetPath)
  {
    var k := ConvertAssetPath2ABPath(assetPath);
    var i :| 0 <= i < |st.abDic[k].assetList| && st.abDic[k].assetList[i].abPath == k &&
      st.abDic[k].assetList[i].assetPath == assetPath;
    assert st'.abDic[k].assetList[i] == st.abDic[k].assetList[i];
  }

  /** Naming one more importer after its folder keeps every entry's name right. */
  lemma RenameKeepsEntries(db: AssetDb, st: EditorState, assetPath: string, k: string, a: AssetUnitModel)
    requires '/' in assetPath && EntryOk(db, st, k, a)
    ensures EntryOk(db, st.(bundleNames := st.bundleNames[assetPath := ConvertAssetPath2ABPath(assetPath)]), k, a)
  {
  }

  /** Every existing entry stays right once the importer of `assetPath` is named. */
  lemma RenameKeepsBundles(db: AssetDb, st: EditorState, assetPath: string)
    requires EditorOk(db, st) && '/' in assetPath
    ensures var st' := st.(bundleNames := st.bundleNames[assetPath := ConvertAssetPath2ABPath(assetPath)]);
      forall k :: k in st.abDic ==> BundleOk(db, st', k, st.abDic[k])
  {
    var st' := st.(bundleNames := st.bundleNames[assetPath := ConvertAssetPath2ABPath(assetPath)]);
    forall k | k in st.abDic ensures BundleOk(db, st', k, st.abDic[k]) {
      assert BundleOk(db, st, k, st.abDic[k]);
      forall i | 0 <= i < |st.abDic[k].assetList| ensures EntryOk(db, st', k, st.abDic[k].assetList[i]) {
        RenameKeepsEntries(db, st, assetPath, k, st.abDic[k].assetList[i]);
      }
    }
  }

  /** Registering into a bundle that already exists. */
  lemma RegisterExisting(db: AssetDb, st: EditorState, assetPath: string)
    requires EditorOk(db, st) && assetPath in db.importers && '/' in assetPath && ConvertAssetPath2ABPath(assetPath) in st.abDic
    ensures EditorOk(db, Register(st, assetPath))
    ensures Grows(st, Register(st, assetPath))
    ensures Registered(Register(st, assetPath), assetPath)
  {
    var k := ConvertAssetPath2ABPath(assetPath);
    var st' := Register(st, assetPath);
    var renamed := st.(bundleNames := st'.bundleNames);
    RenameKeepsBundles(db, st, assetPath);
    var m := st.abDic[k];
    var m' := m.AddAsset(assetPath, k);
    assert st' == renamed.(abDic := st.abDic[k := m']);
    assert BundleOk(db, renamed, k, m);
    assert EntryOk(db, st', k, NewAssetUnitModel(assetPath, k));
    forall i | 0 <= i < |m'.assetList| ensures EntryOk(db, st', k, m'.assetList[i]) {
      if i < |m.assetList| {
        assert m'.assetList[i] == m.assetList[i];
        assert EntryOk(db, renamed, k, m.assetList[i]);
      }
    }
    assert BundleOk(db, st', k, m');
  }

  /** Registering the first asset of a folder: a new bundle at the end of the keys. */
  lemma RegisterNew(db: AssetDb, st: EditorState, assetPath: string)
    requires EditorOk(db, st) && assetPath in db.importers && '/' in assetPath && ConvertAssetPath2ABPath(assetPath) !in st.abDic
    ensures EditorOk(db, Register(st, assetPath))
    ensures Grows(st, Register(st, assetPath))
    ensures Registered(Register(st, assetPath), assetPath)
  {
    var k := ConvertAssetPath2ABPath(assetPath);
    var st' := Register(st, assetPath);
    RenameKeepsBundles(db, st, assetPath);
    var m := NewABUnitModel(assetPath, k);
    assert m.assetList[0] == NewAssetUnitModel(assetPath, k);
    assert BundleOk(db, st', k, m);
    assert Elems(st'.abKeys) == Elems(st.abKeys) + {k};
  }

  /** Registering an importable asset keeps the invariant and leaves the asset registered. */
  lemma RegisterOk(db: AssetDb, st: EditorState, assetPath: string)
    requires EditorOk(db, st) && assetPath in db.importers && '/' in assetPath
    ensures EditorOk(db, Register(st, assetPath))
    ensures Grows(st, Register(st, assetPath))
    ensures Registered(Register(st, assetPath), assetPath)
  {
    if ConvertAssetPath2ABPath(assetPath) in st.abDic {
      RegisterExisting(db, st, assetPath);
    } else {
      RegisterNew(db, st, assetPath);
    }
  }

  /** Every accepted, importable path of `deps` is registered. */
  predicate DepsRegistered(db: AssetDb, st: EditorState, deps: seq<string>)
  {
    forall d :: d in deps && Accepted(db, d) && d in db.importers ==> Registered(st, d)
  }

  lemma DepsRegisteredCons(db: AssetDb, st: EditorState, deps: seq<string>)
    requires deps != [] && DepsRegistered(db, st, deps[1..])
    requires Accepted(db, deps[0]) && deps[0] in db.importers ==> Registered(st, deps[0])
    ensures DepsRegistered(db, st, deps)
  {
    forall d | d in deps && Accepted(db, d) && d in db.importers ensures Registered(st, d) {
      if d != deps[0] {
        assert d in deps[1..];
      }
    }
  }

  /**
   * `SetABNameByAssetPath` with `fuel` nested calls left on the stack: a
   * rejected path returns false and changes nothing; a path without an
   * importer returns true and changes nothing; an importer path without a
   * '/' throws before anything changes; otherwise the asset is
   * registered and each direct dependency is processed in turn. From a sound
   * state the call only adds, and when it returns true for an importable
   * asset, that asset and each accepted, importable direct dependency of it
   * are registered.
   */
  function SetAB(db: AssetDb, st: EditorState, assetPath: string, fuel: nat): (r: SetStep)
    ensures !Accepted(db, assetPath) ==> r == SetStep(st, Returned(false))
    ensures Accepted(db, assetPath) ==> r.outcome != Returned(false)
    ensures Accepted(db, assetPath) && assetPath !in db.importers ==> r == SetStep(st, Returned(true))
    ensures Accepted(db, assetPath) && assetPath in db.importers && '/' !in assetPath ==>
      r == SetStep(st, Threw(ArgumentOutOfRange))
    decreases fuel, 1, 0
  {
    if !Accepted(db, assetPath) then SetStep(st, Returned(false))
    else if assetPath !in db.importers then SetStep(st, Returned(true))
    else if '/' !in assetPath then SetStep(st, Threw(ArgumentOutOfRange))
    else
      var r := SetLoop(db, Register(st, assetPath), DirectDeps(db, assetPath), fuel);
      if r.outcome.Threw? then r else SetStep(r.st, Returned(true))
  }

  /** The `foreach` over the direct dependencies; the first overflow ends it. */
  function SetLoop(db: AssetDb, st: EditorState, deps: seq<string>, fuel: nat): (r: SetStep)
    ensures r.outcome != Returned(false)
    ensures deps == [] ==> r == SetStep(st, Returned(true))
    ensures deps != [] && fuel == 0 ==> r == SetStep(st, Threw(StackOverflow))
    decreases fuel, 0, |deps|
  {
    if deps == [] then SetStep(st, Returned(true))
    else if fuel == 0 then SetStep(st, Threw(StackOverflow))
    else
      var r1 := SetAB(db, st, deps[0], fuel - 1);
      if r1.outcome.Threw? then r1 else SetLoop(db, r1.st, deps[1..], fuel)
  }

  /** Registering, then the dependency loop: what SetAB promises follows from what each step does. */
  lemma AfterRegister(db: AssetDb, st: EditorState, assetPath: string, r: SetStep)
    requires assetPath in db.importers && '/' in assetPath
    requires var st1 := Register(st, assetPath);
      EditorOk(db, st1) ==>
        EditorOk(db, r.st) && Grows(st1, r.st) &&
        (r.outcome == Returned(true) ==> DepsRegistered(db, r.st, DirectDeps(db, assetPath)))
    ensures EditorOk(db, st) ==> EditorOk(db, r.st) && Grows(st, r.st) && Registered(r.st, assetPath)
    ensures EditorOk(db, st) && r.outcome == Returned(true) ==> DepsRegistered(db, r.st, DirectDeps(db, assetPath))
  {
    if EditorOk(db, st) {
      var st1 := Register(st, assetPath);
      RegisterOk(db, st, assetPath);
      GrowsTrans(st, st1, r.st);
      RegisteredGrows(st1, r.st, assetPath);
    }
  }

  /** The first dependency, then the rest: what SetLoop promises follows from what each step does. */
  lemma AfterFirstDependency(db: AssetDb, st: EditorState, deps: seq<string>, r1: SetStep, r: SetStep)
    requires deps != []
    requires Accepted(db, deps[0]) ==> r1.outcome == Returned(true)
    requires EditorOk(db, st) ==>
      EditorOk(db, r1.st) && Grows(st, r1.st) &&
      (r1.outcome == Returned(true) && deps[0] in db.importers ==> Registered(r1.st, deps[0]))
    requires EditorOk(db, r1.st) ==>
      EditorOk(db, r.st) && Grows(r1.st, r.st) &&
      (r.outcome == Returned(true) ==> DepsRegistered(db, r.st, deps[1..]))
    ensures EditorOk(db, st) ==> EditorOk(db, r.st) && Grows(st, r.st)
    ensures EditorOk(db, st) && r.outcome == Returned(true) ==> DepsRegistered(db, r.st, deps)
  {
    if EditorOk(db, st) {
      GrowsTrans(st, r1.st, r.st);
      if r.outcome == Returned(true) {
        if Accepted(db, deps[0]) && deps[0] in db.importers {
          RegisteredGrows(r1.st, r.st, deps[0]);
        }
        DepsRegisteredCons(db, r.st, deps);
      }
    }
  }

  /**
   * From a sound state a call only adds, and when it returns true for an
   * importable asset, that asset and each accepted, importable direct
   * dependency of it are registered.
   */
  lemma {:induction false} SetABOk(db: AssetDb, st: EditorState, assetPath: string, fuel: nat)
    ensures var r := SetAB(db, st, assetPath, fuel);
      EditorOk(db, st) ==> EditorOk(db, r.st) && Grows(st, r.st)
    ensures var r := SetAB(db, st, assetPath, fuel);
      EditorOk(db, st) && r.outcome == Returned(true) && assetPath in db.importers ==>
        Registered(r.st, assetPath) && DepsRegistered(db, r.st, DirectDeps(db, assetPath))
    decreases fuel, 1, 0
  {
    if Accepted(db, assetPath) && assetPath in db.importers && '/' in assetPath {
      var r := SetLoop(db, Register(st, assetPath), DirectDeps(db, assetPath), fuel);
      SetLoopOk(db, Register(st, assetPath), DirectDeps(db, assetPath), fuel);
      AfterRegister(db, st, assetPath, r);
    }
  }

  lemma {:induction false} SetLoopOk(db: AssetDb, st: EditorState, deps: seq<string>, fuel: nat)
    ensures var r := SetLoop(db, st, deps, fuel);
      EditorOk(db, st) ==> EditorOk(db, r.st) && Grows(st, r.st)
    ensures var r := SetLoop(db, st, deps, fuel);
      EditorOk(db, st) && r.outcome == Returned(true) ==> DepsRegistered(db, r.st, deps)
    decreases fuel, 0, |deps|
  {
    if deps != [] && fuel > 0 {
      var r1 := SetAB(db, st, deps[0], fuel - 1);
      SetABOk(db, st, deps[0], fuel - 1);
      if !r1.outcome.Threw? {
        var r := SetLoop(db, r1.st, deps[1..], fuel);
        SetLoopOk(db, r1.st, deps[1..], fuel);
        AfterFirstDependency(db, st, deps, r1, r);
      }
    }
  }

  /** SetAB on a path it registers: the loop over the direct dependencies decides the rest. */
  lemma SetABRegisters(db: AssetDb, st: EditorState, assetPath: string, fuel: nat)
    requires Accepted(db, assetPath) && assetPath in db.importers && '/' in assetPath
    ensures var r := SetLoop(db, Register(st, assetPath), DirectDeps(db, assetPath), fuel);
      SetAB(db, st, assetPath, fuel) == if r.outcome.Threw? then r else SetStep(r.st, Returned(true))
  {
  }

  /** One turn of the loop over the direct dependencies. */
  lemma SetLoopStep(db: AssetDb, st: EditorState, deps: seq<string>, fuel: nat)
    requires deps != [] && fuel > 0
    ensures var r1 := SetAB(db, st, deps[0], fuel - 1);
      SetLoop(db, st, deps, fuel) == if r1.outcome.Threw? then r1 else SetLoop(db, r1.st, deps[1..], fuel)
  {
  }

  /**
   * One turn of the loop, from `before` to `after`: an overflow of the call for
   * `deps[i]` is the loop's result, any other outcome leaves the rest to run.
   */
  lemma SetLoopTurn(db: AssetDb, before: EditorState, after: EditorState, r: Outcome, deps: seq<string>, fuel: nat, i: nat)
    requires i < |deps| && fuel > 0
    requires SetStep(after, r) == SetAB(db, before, deps[i], fuel - 1)
    ensures r.Threw? ==> SetLoop(db, before, deps[i..], fuel) == SetStep(after, r)
    ensures !r.Threw? ==> SetLoop(db, before, deps[i..], fuel) == SetLoop(db, after, deps[i + 1..], fuel)
  {
    SetLoopStep(db, before, deps[i..], fuel);
    assert deps[i..][0] == deps[i] && deps[i..][1..] == deps[i + 1..];
  }

  /** A registering call overflows exactly when its dependency loop does. */
  lemma SetABOverflows(db: AssetDb, st: EditorState, assetPath: string, fuel: nat)
    requires Accepted(db, assetPath) && assetPath in db.importers && '/' in assetPath
    ensures SetAB(db, st, assetPath, fuel).outcome == Threw(StackOverflow) <==>
      SetLoop(db, Register(st, assetPath), DirectDeps(db, assetPath), fuel).outcome == Threw(StackOverflow)
  {
  }

  /** With a frame left, a loop over one dependency overflows exactly when the nested call does. */
  lemma SetLoopOneOverflows(db: AssetDb, st: EditorState, d: string, fuel: nat, inner: nat)
    requires fuel == inner + 1
    ensures SetLoop(db, st, [d], fuel).outcome == Threw(StackOverflow) <==>
      SetAB(db, st, d, inner).outcome == Threw(StackOverflow)
  {
    var r1 := SetAB(db, st, d, inner);
    SetLoopStep(db, st, [d], fuel);
    assert [d][0] == d && [d][1..] == [];
    assert SetLoop(db, r1.st, [], fuel).outcome == Returned(true);
  }

  /**
   * Two accepted, importable assets that reference each other directly:
   * nothing stops the recursion, so the call overflows however deep the
   * stack is.
   */
  lemma {:induction false} MutualReferenceOverflows(db: AssetDb, st: EditorState, a: string, b: string, fuel: nat)
    requires Accepted(db, a) && Accepted(db, b) && a in db.importers && b in db.importers && '/' in a && '/' in b
    requires DirectDeps(db, a) == [b] && DirectDeps(db, b) == [a]
    ensures SetAB(db, st, a, fuel).outcome == Threw(StackOverflow)
    decreases fuel
  {
    var st1 := Register(st, a);
    SetABOverflows(db, st, a, fuel);
    if fuel > 0 {
      var f1: nat := fuel - 1;
      var st2 := Register(st1, b);
      SetLoopOneOverflows(db, st1, b, fuel, f1);
      SetABOverflows(db, st1, b, f1);
      if f1 > 0 {
        var f2: nat := f1 - 1;
        SetLoopOneOverflows(db, st2, a, f1, f2);
        MutualReferenceOverflows(db, st2, a, b, f2);
      }
    }
  }

  // ---------------------------------------------------------------- GenerateAllABDependencies

  /** `dependenciesSet`: asset path to the set of its dependencies, keys in insertion order. */
  datatype DepsMap = DepsMap(keys: seq<string>, sets: map<string, seq<string>>)

  /** Bundles the dependency scan skips. */
  predicate Skipped(abPath: string)
  {
    StartsWith(abPath, "assets/dependencies") || abPath == "assets"
  }

  /** `HashSet.Add` of each path that has an importer, in turn. */
  function AddImported(db: AssetDb, set0: seq<string>, paths: seq<string>): (r: seq<string>)
    ensures set0 <= r
    ensures NoDup(set0) ==> NoDup(r)
    decreases paths
  {
    if paths == [] then set0
    else
      var p := paths[0];
      var set1 := if p in db.importers && p !in set0 then set0 + [p] else set0;
      AddImported(db, set1, paths[1..])
  }

  /** The paths of the list that have an importer, in order. */
  function Imported(db: AssetDb, paths: seq<string>): (r: seq<string>)
    ensures |r| <= |paths|
  {
    if paths == [] then []
    else if paths[0] in db.importers then [paths[0]] + Imported(db, paths[1..])
    else Imported(db, paths[1..])
  }

  /** The set afterwards holds what it held and the importable paths added, nothing else. */
  lemma {:induction false} AddImportedMembers(db: AssetDb, set0: seq<string>, paths: seq<string>, x: string)
    ensures x in AddImported(db, set0, paths) <==> x in set0 || (x in paths && x in db.importers)
    decreases paths
  {
    if paths != [] {
      var set1 := if paths[0] in db.importers && paths[0] !in set0 then set0 + [paths[0]] else set0;
      AddImportedMembers(db, set1, paths[1..], x);
      assert x in paths <==> x == paths[0] || x in paths[1..];
    }
  }

  /** The importable paths are exactly those of the list that have an importer. */
  lemma {:induction false} ImportedMembers(db: AssetDb, paths: seq<string>, x: string)
    ensures x in Imported(db, paths) <==> x in paths && x in db.importers
  {
    if paths != [] {
      ImportedMembers(db, paths[1..], x);
      assert x in paths <==> x == paths[0] || x in paths[1..];
    }
  }

  /** Adding paths none of which is there yet just appends the importable ones. */
  lemma {:induction false} AddImportedFresh(db: AssetDb, set0: seq<string>, paths: seq<string>)
    requires NoDup(paths) && forall x :: x in paths ==> x !in set0
    ensures AddImported(db, set0, paths) == set0 + Imported(db, paths)
    decreases paths
  {
    if paths != [] {
      var p := paths[0];
      var rest := paths[1..];
      assert p !in set0;
      assert forall k :: 0 <= k < |rest| ==> rest[k] == paths[k + 1];
      assert NoDup(rest);
      assert forall x :: x in rest ==> x != p && x !in set0;
      if p in db.importers {
        AddImportedFresh(db, set0 + [p], rest);
        assert set0 + [p] + Imported(db, rest) == set0 + ([p] + Imported(db, rest));
      } else {
        AddImportedFresh(db, set0, rest);
      }
    }
  }

  /** Adding paths that are all there already changes nothing. */
  lemma {:induction false} AddImportedPresent(db: AssetDb, set0: seq<string>, paths: seq<string>)
    requires forall x :: x in paths && x in db.importers ==> x in set0
    ensures AddImported(db, set0, paths) == set0
  {
    if paths != [] {
      assert forall x :: x in paths[1..] ==> x in paths;
      AddImportedPresent(db, set0, paths[1..]);
    }
  }

  /** The closure of an asset, as the editor records it: its importable part, in collection order. */
  function DependencySet(db: AssetDb, assetPath: string): seq<string>
  {
    Imported(db, DepsRec(db, assetPath, []))
  }

  /** One asset of the scan: create its set if new, then add its importable dependencies. */
  function ScanAsset(db: AssetDb, dm: DepsMap, assetPath: string): DepsMap
  {
    if assetPath !in db.importers then dm
    else
      var dm1 := if assetPath in dm.sets then dm else DepsMap(dm.keys + [assetPath], dm.sets[assetPath := []]);
      dm1.(sets := dm1.sets[assetPath := AddImported(db, dm1.sets[assetPath], DepsRec(db, assetPath, []))])
  }

  function ScanAssets(db: AssetDb, dm: DepsMap, assets: seq<AssetUnitModel>): DepsMap
    decreases assets
  {
    if assets == [] then dm else ScanAssets(db, ScanAsset(db, dm, assets[0].assetPath), assets[1..])
  }

  function ScanBundles(db: AssetDb, st: EditorState, keys: seq<string>, dm: DepsMap): DepsMap
    requires Elems(keys) <= st.abDic.Keys
  {
    if keys == [] then dm
    else
      assert keys[0] in Elems(keys) && Elems(keys[1..]) <= Elems(keys);
      var dm1 := if Skipped(keys[0]) then dm else ScanAssets(db, dm, st.abDic[keys[0]].assetList);
      ScanBundles(db, st, keys[1..], dm1)
  }

  /** `GenerateAllABDependencies` on the editor state. */
  function GenerateAll(db: AssetDb, st: EditorState): DepsMap
    requires Elems(st.abKeys) <= st.abDic.Keys
  {
    ScanBundles(db, st, st.abKeys, DepsMap([], map[]))
  }

  /** The asset paths the scan visits, in visiting order. */
  function PathsOf(assets: seq<AssetUnitModel>): (r: seq<string>)
    ensures |r| == |assets| && forall i :: 0 <= i < |r| ==> r[i] == assets[i].assetPath
  {
    if assets == [] then [] else [assets[0].assetPath] + PathsOf(assets[1..])
  }

  function ScannedPaths(st: EditorState, keys: seq<string>): seq<string>
    requires Elems(keys) <= st.abDic.Keys
  {
    if keys == [] then []
    else
      assert keys[0] in Elems(keys) && Elems(keys[1..]) <= Elems(keys);
      (if Skipped(keys[0]) then [] else PathsOf(st.abDic[keys[0]].assetList)) + ScannedPaths(st, keys[1..])
  }

  /** The keys are unique and listed once each; every set is the recorded closure of its asset. */
  predicate DepsMapOk(db: AssetDb, dm: DepsMap)
  {
    NoDup(dm.keys) && Elems(dm.keys) == dm.sets.Keys &&
    forall p :: p in dm.sets ==> dm.sets[p] == DependencySet(db, p)
  }

  lemma ScanAssetOk(db: AssetDb, dm: DepsMap, assetPath: string)
    requires DepsMapOk(db, dm)
    ensures DepsMapOk(db, ScanAsset(db, dm, assetPath))
    ensures ScanAsset(db, dm, assetPath).keys == AddImported(db, dm.keys, [assetPath])
  {
    assert [assetPath][1..] == [];
    if assetPath in db.importers {
      if assetPath in dm.sets {
        ScanKnownAsset(db, dm, assetPath);
      } else {
        ScanNewAsset(db, dm, assetPath);
        AppendKeyOk(db, dm, assetPath);
      }
    }
  }

  /** A second visit finds every dependency in the set already. */
  lemma ScanKnownAsset(db: AssetDb, dm: DepsMap, assetPath: string)
    requires DepsMapOk(db, dm) && assetPath in db.importers && assetPath in dm.sets
    ensures ScanAsset(db, dm, assetPath) == dm
  {
    var deps := DepsRec(db, assetPath, []);
    assert dm.sets[assetPath] == Imported(db, deps);
    forall x | x in deps && x in db.importers
      ensures x in Imported(db, deps)
    {
      ImportedMembers(db, deps, x);
    }
    AddImportedPresent(db, dm.sets[assetPath], deps);
    assert dm.sets[assetPath := dm.sets[assetPath]] == dm.sets;
  }

  /** A first visit appends the key and records the importable closure. */
  lemma ScanNewAsset(db: AssetDb, dm: DepsMap, assetPath: string)
    requires assetPath in db.importers && assetPath !in dm.sets
    ensures ScanAsset(db, dm, assetPath) ==
      DepsMap(dm.keys + [assetPath], dm.sets[assetPath := DependencySet(db, assetPath)])
  {
    FirstScanSet(db, assetPath);
    var sets0 := dm.sets[assetPath := []];
    assert sets0[assetPath] == [];
    assert sets0[assetPath := DependencySet(db, assetPath)] == dm.sets[assetPath := DependencySet(db, assetPath)];
  }

  /** Appending a new key with its closure keeps the map well formed. */
  lemma AppendKeyOk(db: AssetDb, dm: DepsMap, assetPath: string)
    requires DepsMapOk(db, dm) && assetPath !in dm.sets
    ensures DepsMapOk(db, DepsMap(dm.keys + [assetPath], dm.sets[assetPath := DependencySet(db, assetPath)]))
  {
    assert assetPath !in dm.keys;
    NoDupAppend(dm.keys, assetPath);
    assert Elems(dm.keys + [assetPath]) == Elems(dm.keys) + {assetPath};
  }

  lemma NoDupAppend<T>(s: seq<T>, x: T)
    requires NoDup(s) && x !in s
    ensures NoDup(s + [x])
  {
    assert forall i :: 0 <= i < |s| ==> (s + [x])[i] == s[i];
  }

  /** Starting from an empty set, the scan records the importable closure. */
  lemma FirstScanSet(db: AssetDb, assetPath: string)
    ensures AddImported(db, [], DepsRec(db, assetPath, [])) == DependencySet(db, assetPath)
  {
    var deps := DepsRec(db, assetPath, []);
    DependencyClosure(db, assetPath);
    AddImportedFresh(db, [], deps);
    assert [] + Imported(db, deps) == Imported(db, deps);
  }

  lemma {:induction false} ScanAssetsOk(db: AssetDb, dm: DepsMap, assets: seq<AssetUnitModel>)
    requires DepsMapOk(db, dm)
    ensures DepsMapOk(db, ScanAssets(db, dm, assets))
    ensures ScanAssets(db, dm, assets).keys == AddImported(db, dm.keys, PathsOf(assets))
    decreases assets
  {
    if assets != [] {
      ScanAssetOk(db, dm, assets[0].assetPath);
      ScanAssetsOk(db, ScanAsset(db, dm, assets[0].assetPath), assets[1..]);
      AddImportedConcat(db, dm.keys, [assets[0].assetPath], PathsOf(assets[1..]));
      assert PathsOf(assets) == [assets[0].assetPath] + PathsOf(assets[1..]);
    }
  }

  lemma {:induction false} AddImportedConcat(db: AssetDb, set0: seq<string>, a: seq<string>, b: seq<string>)
    ensures AddImported(db, set0, a + b) == AddImported(db, AddImported(db, set0, a), b)
    decreases a
  {
    if a != [] {
      assert (a + b)[1..] == a[1..] + b;
      var set1 := if a[0] in db.importers && a[0] !in set0 then set0 + [a[0]] else set0;
      AddImportedConcat(db, set1, a[1..], b);
    } else {
      assert a + b == b;
    }
  }

  lemma {:induction false} ScanBundlesOk(db: AssetDb, st: EditorState, keys: seq<string>, dm: DepsMap)
    requires Elems(keys) <= st.abDic.Keys && DepsMapOk(db, dm)
    ensures DepsMapOk(db, ScanBundles(db, st, keys, dm))
    ensures ScanBundles(db, st, keys, dm).keys == AddImported(db, dm.keys, ScannedPaths(st, keys))
  {
    if keys != [] {
      assert keys[0] in Elems(keys) && Elems(keys[1..]) <= Elems(keys);
      var own := if Skipped(keys[0]) then [] else PathsOf(st.abDic[keys[0]].assetList);
      var dm1 := if Skipped(keys[0]) then dm else ScanAssets(db, dm, st.abDic[keys[0]].assetList);
      if !Skipped(keys[0]) {
        ScanAssetsOk(db, dm, st.abDic[keys[0]].assetList);
      }
      ScanBundlesOk(db, st, keys[1..], dm1);
      AddImportedConcat(db, dm.keys, own, ScannedPaths(st, keys[1..]));
    }
  }

  /**
   * What `GenerateAllABDependencies` returns: one key per importable asset
   * path of the bundles it does not skip, in first-visit order and without
   * repeats; each key's set is the importable part of what
   * `GetDependenciesRecursive` collects for it, however often it was visited.
   */
  lemma GenerateAllMeaning(db: AssetDb, st: EditorState)
    requires Elems(st.abKeys) <= st.abDic.Keys
    ensures var dm := GenerateAll(db, st);
      dm.keys == AddImported(db, [], ScannedPaths(st, st.abKeys)) &&
      Elems(dm.keys) == dm.sets.Keys &&
      forall p :: p in dm.sets ==> dm.sets[p] == DependencySet(db, p)
  {
    ScanBundlesOk(db, st, st.abKeys, DepsMap([], map[]));
  }

  // ---------------------------------------------------------------- the editor object

  /** The editor's static fields; `new Editor(names)` is the class initialiser. */
  class Editor {
    var abKeys: seq<string>
    var abDic: map<string, ABUnitModel>
    var bundleNames: map<string, string>

    function State(): EditorState
      reads this
    {
      EditorState(abKeys, abDic, bundleNames)
    }

    /** An empty `abDic`; the importers keep whatever bundle names the project already had. */
    constructor (names: map<string, string>)
      ensures State() == EditorState([], map[], names)
    {
      abKeys := [];
      abDic := map[];
      bundleNames := names;
    }

    /** `Clear`: empties `abDic`; the names given to importers stay. */
    method Clear()
      modifies this
      ensures State() == old(State()).(abKeys := [], abDic := map[])
    {
      abKeys := [];
      abDic := map[];
    }

    /** `SetABNameByAssetPath`, with `fuel` nested calls left on the stack. */
    method SetABNameByAssetPath(db: AssetDb, assetPath: string, fuel: nat) returns (outcome: Outcome)
      modifies this
      ensures SetStep(State(), outcome) == SetAB(db, old(State()), assetPath, fuel)
      decreases fuel, 1
    {
      if !IsAssetPathIllegality(assetPath) {
        return Returned(false);
      }
      if assetPath !in db.files {
        return Returned(false);
      }
      if ' ' in assetPath {
        return Returned(false);
      }
      if assetPath in db.importers {
        if '/' !in assetPath {
          return Threw(ArgumentOutOfRange);
        }
        var abPath := ConvertAssetPath2ABPath(assetPath);
        if abPath in abDic {
          abDic := abDic[abPath := abDic[abPath].AddAsset(assetPath, abPath)];
        } else {
          abKeys := abKeys + [abPath];
          abDic := abDic[abPath := NewABUnitModel(assetPath, abPath)];
        }
        bundleNames := bundleNames[assetPath := abPath];
        assert State() == Register(old(State()), assetPath);
        SetABRegisters(db, old(State()), assetPath, fuel);
        var depencies := DirectDeps(db, assetPath);
        var r := SetDependencies(db, depencies, fuel);
        if r.Threw? {
          return r;
        }
      }
      return Returned(true);
    }

    /** The `foreach` over the direct dependencies of the asset just registered. */
    method SetDependencies(db: AssetDb, depencies: seq<string>, fuel: nat) returns (outcome: Outcome)
      modifies this
      ensures SetStep(State(), outcome) == SetLoop(db, old(State()), depencies, fuel)
      decreases fuel, 0
    {
      ghost var goal := SetLoop(db, State(), depencies, fuel);
      if |depencies| > 0 {
        if fuel == 0 {
          return Threw(StackOverflow);
        }
        var i := 0;
        ghost var rest := depencies;
        while i < |depencies|
          invariant 0 <= i <= |depencies| && rest == depencies[i..]
          invariant SetLoop(db, EditorState(abKeys, abDic, bundleNames), rest, fuel) == goal
        {
          ghost var before := EditorState(abKeys, abDic, bundleNames);
          var r := SetABNameByAssetPath(db, depencies[i], fuel - 1);
          ghost var after := EditorState(abKeys, abDic, bundleNames);
          SetLoopTurn(db, before, after, r, depencies, fuel, i);
          if r.Threw? {
            return r;
          }
          i := i + 1;
          rest := depencies[i..];
        }
        assert rest == [];
      }
      return Returned(true);
    }

    /**
     * `GenerateAllABDependencies`: for every asset with an importer in the
     * bundles it does not skip, the set of importable paths its recursive
     * dependency walk reaches.  The editor's state is only read.
     */
    method GenerateAllABDependencies(db: AssetDb) returns (dependenciesSet: DepsMap)
      requires Elems(abKeys) <= abDic.Keys
      ensures dependenciesSet == GenerateAll(db, State())
    {
      dependenciesSet := DepsMap([], map[]);
      var k := 0;
      while k < |abKeys|
        invariant 0 <= k <= |abKeys|
        invariant Elems(abKeys[k..]) <= abDic.Keys
        invariant ScanBundles(db, State(), abKeys[k..], dependenciesSet) == GenerateAll(db, State())
      {
        var abPath := abKeys[k];
        assert abKeys[k..][0] == abPath && abKeys[k..][1..] == abKeys[k + 1..];
        assert abPath in Elems(abKeys[k..]) && Elems(abKeys[k + 1..]) <= Elems(abKeys[k..]);
        if !Skipped(abPath) {
          dependenciesSet := ScanBundle(db, dependenciesSet, abDic[abPath].assetList);
        }
        k := k + 1;
      }
    }
  }

  /** The inner loop of `GenerateAllABDependencies`, over one bundle's asset list. */
  method ScanBundle(db: AssetDb, dm: DepsMap, assetList: seq<AssetUnitModel>) returns (dependenciesSet: DepsMap)
    ensures dependenciesSet == ScanAssets(db, dm, assetList)
  {
    dependenciesSet := dm;
    var n := 0;
    while n < |assetList|
      invariant 0 <= n <= |assetList|
      invariant ScanAssets(db, dependenciesSet, assetList[n..]) == ScanAssets(db, dm, assetList)
    {
      assert assetList[n..][0] == assetList[n] && assetList[n..][1..] == assetList[n + 1..];
      var assetPath := assetList[n].assetPath;
      if assetPath in db.importers {
        var tempSet: seq<string>;
        if assetPath in dependenciesSet.sets {
          tempSet := dependenciesSet.sets[assetPath];
        } else {
          tempSet := [];
          dependenciesSet := DepsMap(dependenciesSet.keys + [assetPath], dependenciesSet.sets[assetPath := tempSet]);
        }
        var tempDependenciesSet := GetDependenciesRecursive(db, assetPath, []);
        tempSet := AddEach(db, tempSet, tempDependenciesSet);
        dependenciesSet := dependenciesSet.(sets := dependenciesSet.sets[assetPath := tempSet]);
      }
      n := n + 1;
    }
  }

  /** Adds each importable dependency to the asset's set, once. */
  method AddEach(db: AssetDb, set0: seq<string>, deps: seq<string>) returns (tempSet: seq<string>)
    ensures tempSet == AddImported(db, set0, deps)
  {
    tempSet := set0;
    var j := 0;
    while j < |deps|
      invariant 0 <= j <= |deps|
      invariant AddImported(db, tempSet, deps[j..]) == AddImported(db, set0, deps)
    {
      assert deps[j..][0] == deps[j] && deps[j..][1..] == deps[j + 1..];
      if deps[j] in db.importers && deps[j] !in tempSet {
        tempSet := tempSet + [deps[j]];
      }
      j := j + 1;
    }
    assert deps[j..] == [];
  }
}
