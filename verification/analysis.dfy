/**
 * "Run Analysis" of the all-project windows (`PopulateUnreferencedAssetsList`
 * and `PopulateUnusedAssetsList`): the reverse map is walked in key order,
 * each asset gets its effective reference count, the settings, the type
 * classifier and the ignore patterns decide whether it is listed, the
 * listed rows are counted per type name and finally sorted by path.
 */
module Analysis {
  import opened Common
  import opened Strings
  import opened Assets
  import opened ReverseMap
  import opened Classify
  import opened Sorting
  import opened Query

  const AtlasWarningPrefix: string := "Sprite references only its atlas "

  /** The reference count an asset is listed with, and its warning ("" for none). */
  datatype Effective = Effective(count: nat, warning: string)

  /** A texture whose only referrer is a sprite atlas: it counts as unreferenced. */
  predicate OnlyAtlasReference(typeOf: Path -> AssetType, path: Path, refs: seq<Path>) {
    |refs| == 1 && typeOf(path) == Texture2D && typeOf(refs[0]) == SpriteAtlas
  }

  /**
   * The count and warning of one map entry: the number of referrers, except
   * that a texture referenced only by a sprite atlas counts 0 and is warned
   * about with that atlas's path.
   */
  function EffectiveReferences(typeOf: Path -> AssetType, path: Path, refs: seq<Path>): (e: Effective)
    ensures e.warning != "" <==> OnlyAtlasReference(typeOf, path, refs)
    ensures e.warning != "" ==> e.warning == AtlasWarningPrefix + refs[0]
    ensures e.count == 0 <==> |refs| == 0 || OnlyAtlasReference(typeOf, path, refs)
    ensures e.count != 0 ==> e.count == |refs|
  {
    var e := Effective(|refs|, "");
    if |refs| == 1 && typeOf(path) == Texture2D && typeOf(refs[0]) == SpriteAtlas then
      Effective(0, AtlasWarningPrefix + refs[0])
    else e
  }

  /** `AnalysisSettings`: list unreferenced assets only, and the ignore patterns with their regex matcher. */
  datatype AnalysisSettings = AnalysisSettings(
    findUnreferencedOnly: bool,
    ignoredPatterns: seq<string>,
    matches: (Path, string) -> bool)

  function EffectiveOf(project: Project, m: RefMap, k: Path): Effective
    requires k in m
  {
    EffectiveReferences(project.typeOf, k, m[k])
  }

  /** The entries that reach the type test: all of them, or only those with count 0. */
  predicate Considered(project: Project, m: RefMap, settings: AnalysisSettings, k: Path)
    requires k in m
  {
    !settings.findUnreferencedOnly || EffectiveOf(project, m, k).count == 0
  }

  /** Some entry of `keys` that reaches the type test is a texture, so the walk needs the icon list. */
  predicate TextureConsidered(project: Project, m: RefMap, settings: AnalysisSettings, keys: seq<Path>)
    requires forall i :: 0 <= i < |keys| ==> keys[i] in m
  {
    exists i :: 0 <= i < |keys| && Considered(project, m, settings, keys[i]) && project.typeOf(keys[i]).Texture2D?
  }

  lemma {:induction false} TextureConsideredUnfold(project: Project, m: RefMap, settings: AnalysisSettings, keys: seq<Path>)
    requires |keys| > 0 && forall i :: 0 <= i < |keys| ==> keys[i] in m
    ensures TextureConsidered(project, m, settings, keys) <==>
              (Considered(project, m, settings, keys[0]) && project.typeOf(keys[0]).Texture2D?)
              || TextureConsidered(project, m, settings, keys[1..])
  {
    if TextureConsidered(project, m, settings, keys) {
      var i :| 0 <= i < |keys| && Considered(project, m, settings, keys[i]) && project.typeOf(keys[i]).Texture2D?;
      if i > 0 {
        assert keys[1..][i - 1] == keys[i];
      }
    }
    if TextureConsidered(project, m, settings, keys[1..]) {
      var i :| 0 <= i < |keys[1..]| && Considered(project, m, settings, keys[1..][i]) && project.typeOf(keys[1..][i]).Texture2D?;
      assert keys[i + 1] == keys[1..][i];
    }
  }

  /** Considered, and of a type the Packages-side classifier accepts with the icon set `icons`. */
  predicate ValidEntry(project: Project, m: RefMap, settings: AnalysisSettings, icons: set<Path>, k: Path) {
    && k in m
    && Considered(project, m, settings, k)
    && !project.typeOf(k).Unknown?
    && !ExcludedType(project.typeOf(k), k, project.buildScenes, icons)
  }

  /** The entries listed: valid and not ignored by any pattern. */
  function ListedBy(project: Project, m: RefMap, settings: AnalysisSettings, icons: set<Path>): Path -> bool {
    k => ValidEntry(project, m, settings, icons, k) && IsValidForOutput(k, settings.ignoredPatterns, settings.matches)
  }

  /** The entries written to the "ignored by pattern" log: valid but ignored by a pattern. */
  function IgnoredBy(project: Project, m: RefMap, settings: AnalysisSettings, icons: set<Path>): Path -> bool {
    k => ValidEntry(project, m, settings, icons, k) && !IsValidForOutput(k, settings.ignoredPatterns, settings.matches)
  }

  /** The row `AssetData.Create` makes for a listed entry. */
  function Row(project: Project, m: RefMap, k: Path): AssetData
    requires k in m
  {
    var e := EffectiveOf(project, m, k);
    CreateAssetData(project, k, e.count, e.warning)
  }

  function Rows(project: Project, m: RefMap, ks: seq<Path>): (r: seq<AssetData>)
    requires forall i :: 0 <= i < |ks| ==> ks[i] in m
    ensures |r| == |ks|
    ensures forall i :: 0 <= i < |ks| ==> r[i] == Row(project, m, ks[i]) && r[i].path == ks[i]
  {
    if |ks| == 0 then [] else [Row(project, m, ks[0])] + Rows(project, m, ks[1..])
  }

  /** The listed rows, the "ignored by pattern" log, and the service's icon cache after the walk. */
  datatype Scan = Scan(assets: seq<AssetData>, ignored: seq<Path>, cache: IconCache)

  /** The keys a walk lists, the keys it logs, and the icon cache it leaves. */
  datatype Walk = Walk(listed: seq<Path>, ignored: seq<Path>, cache: IconCache)

  /**
   * The `foreach` over the map, entry by entry in `keys` order: the listed
   * entries are collected, the pattern-ignored ones go to the log, and the
   * icon list is loaded at most once, by the first texture classified.
   * Its properties are the three lemmas below, gathered in `ScanEntries`.
   */
  function WalkEntries(project: Project, m: RefMap, keys: seq<Path>, settings: AnalysisSettings, cache: IconCache): Walk
    requires forall i :: 0 <= i < |keys| ==> keys[i] in m
    decreases |keys|
  {
    if |keys| == 0 then Walk([], [], cache)
    else
      var k := keys[0];
      if settings.findUnreferencedOnly && EffectiveOf(project, m, k).count != 0 then
        WalkEntries(project, m, keys[1..], settings, cache)
      else
        var v := IsValidAssetType(project, cache, k);
        var rest := WalkEntries(project, m, keys[1..], settings, v.cache);
        if !v.ok then rest
        else if IsValidForOutput(k, settings.ignoredPatterns, settings.matches) then
          Walk([k] + rest.listed, rest.ignored, rest.cache)
        else Walk(rest.listed, [k] + rest.ignored, rest.cache)
  }

  /**
   * The walk of `PopulateUnreferencedAssetsList`: the rows of the entries
   * that are considered, valid and not ignored, made with `AssetData.Create`
   * in key order; the log of the valid ignored ones; and the cache, which an
   * empty cache leaves filled exactly when a considered entry is a texture.
   */
  function ScanEntries(project: Project, m: RefMap, keys: seq<Path>, settings: AnalysisSettings, cache: IconCache): (r: Scan)
    requires forall i :: 0 <= i < |keys| ==> keys[i] in m
    ensures r.assets == Rows(project, m, Filter(keys, ListedBy(project, m, settings, Resolve(cache, project.icons))))
    ensures r.ignored == Filter(keys, IgnoredBy(project, m, settings, Resolve(cache, project.icons)))
    ensures r.cache == cache || r.cache == Some(Resolve(cache, project.icons))
    ensures r.cache == (if cache.None? && TextureConsidered(project, m, settings, keys) then Some(project.icons) else cache)
  {
    var w := WalkEntries(project, m, keys, settings, cache);
    WalkListed(project, m, keys, settings, cache);
    WalkIgnored(project, m, keys, settings, cache);
    WalkCache(project, m, keys, settings, cache);
    Scan(Rows(project, m, w.listed), w.ignored, w.cache)
  }

  lemma {:induction false} WalkListed(project: Project, m: RefMap, keys: seq<Path>, settings: AnalysisSettings, cache: IconCache)
    requires forall i :: 0 <= i < |keys| ==> keys[i] in m
    ensures WalkEntries(project, m, keys, settings, cache).listed
            == Filter(keys, ListedBy(project, m, settings, Resolve(cache, project.icons)))
    decreases |keys|
  {
    if |keys| > 0 {
      var k := keys[0];
      var icons := Resolve(cache, project.icons);
      if settings.findUnreferencedOnly && EffectiveOf(project, m, k).count != 0 {
        SkippedHead(project, m, keys, settings, icons);
        WalkListed(project, m, keys[1..], settings, cache);
      } else {
        var v := IsValidAssetType(project, cache, k);
        assert Resolve(v.cache, project.icons) == icons;
        WalkListed(project, m, keys[1..], settings, v.cache);
        ConsideredHead(project, m, keys, settings, icons, v.ok);
      }
    }
  }

  lemma {:induction false} WalkIgnored(project: Project, m: RefMap, keys: seq<Path>, settings: AnalysisSettings, cache: IconCache)
    requires forall i :: 0 <= i < |keys| ==> keys[i] in m
    ensures WalkEntries(project, m, keys, settings, cache).ignored
            == Filter(keys, IgnoredBy(project, m, settings, Resolve(cache, project.icons)))
    decreases |keys|
  {
    if |keys| > 0 {
      var k := keys[0];
      var icons := Resolve(cache, project.icons);
      if settings.findUnreferencedOnly && EffectiveOf(project, m, k).count != 0 {
        SkippedHead(project, m, keys, settings, icons);
        WalkIgnored(project, m, keys[1..], settings, cache);
      } else {
        var v := IsValidAssetType(project, cache, k);
        assert Resolve(v.cache, project.icons) == icons;
        WalkIgnored(project, m, keys[1..], settings, v.cache);
        ConsideredHead(project, m, keys, settings, icons, v.ok);
      }
    }
  }

  lemma {:induction false} WalkCache(project: Project, m: RefMap, keys: seq<Path>, settings: AnalysisSettings, cache: IconCache)
    requires forall i :: 0 <= i < |keys| ==> keys[i] in m
    ensures WalkEntries(project, m, keys, settings, cache).cache
            == (if cache.None? && TextureConsidered(project, m, settings, keys) then Some(project.icons) else cache)
    decreases |keys|
  {
    if |keys| > 0 {
      var k := keys[0];
      TextureConsideredUnfold(project, m, settings, keys);
      if settings.findUnreferencedOnly && EffectiveOf(project, m, k).count != 0 {
        WalkCache(project, m, keys[1..], settings, cache);
      } else {
        var v := IsValidAssetType(project, cache, k);
        WalkCache(project, m, keys[1..], settings, v.cache);
        CacheWalkStep(project.typeOf(k), cache, v.cache, WalkEntries(project, m, keys[1..], settings, v.cache).cache,
                      project.icons, TextureConsidered(project, m, settings, keys[1..]));
      }
    }
  }

  /** A first entry that the unreferenced-only mode skips is neither listed nor logged. */
  lemma SkippedHead(project: Project, m: RefMap, keys: seq<Path>, settings: AnalysisSettings, icons: set<Path>)
    requires |keys| > 0 && forall i :: 0 <= i < |keys| ==> keys[i] in m
    requires !Considered(project, m, settings, keys[0])
    ensures Filter(keys, ListedBy(project, m, settings, icons)) == Filter(keys[1..], ListedBy(project, m, settings, icons))
    ensures Filter(keys, IgnoredBy(project, m, settings, icons)) == Filter(keys[1..], IgnoredBy(project, m, settings, icons))
  {
  }

  /** A considered first entry is listed or logged by the type test `ok` and the patterns alone. */
  lemma ConsideredHead(project: Project, m: RefMap, keys: seq<Path>, settings: AnalysisSettings, icons: set<Path>, ok: bool)
    requires |keys| > 0 && keys[0] in m
    requires Considered(project, m, settings, keys[0])
    requires ok <==> (!project.typeOf(keys[0]).Unknown? &&
      !ExcludedType(project.typeOf(keys[0]), keys[0], project.buildScenes, icons))
    ensures var valid := IsValidForOutput(keys[0], settings.ignoredPatterns, settings.matches);
            Filter(keys, ListedBy(project, m, settings, icons))
              == (if ok && valid then [keys[0]] else []) + Filter(keys[1..], ListedBy(project, m, settings, icons))
    ensures var valid := IsValidForOutput(keys[0], settings.ignoredPatterns, settings.matches);
            Filter(keys, IgnoredBy(project, m, settings, icons))
              == (if ok && !valid then [keys[0]] else []) + Filter(keys[1..], IgnoredBy(project, m, settings, icons))
  {
  }

  /** An entry is listed or logged, never both, and which one depends on the patterns alone. */
  lemma ListedOrIgnored(project: Project, m: RefMap, settings: AnalysisSettings, icons: set<Path>, k: Path)
    ensures !(ListedBy(project, m, settings, icons)(k) && IgnoredBy(project, m, settings, icons)(k))
    ensures ValidEntry(project, m, settings, icons, k) ==>
      (ListedBy(project, m, settings, icons)(k) || IgnoredBy(project, m, settings, icons)(k))
  {
  }

  // ---------------------------------------------------------------------
  // Counts per type name
  // ---------------------------------------------------------------------

  function TypeNames(assets: seq<AssetData>): (r: seq<string>)
    ensures |r| == |assets|
    ensures forall i :: 0 <= i < |assets| ==> r[i] == assets[i].typeName
  {
    if |assets| == 0 then [] else [assets[0].typeName] + TypeNames(assets[1..])
  }

  /** `RefsByTypes` as a value: each type name present, with the number of rows of that type. */
  function RefsByTypes(assets: seq<AssetData>): map<string, nat> {
    map t | t in TypeNames(assets) :: Count(TypeNames(assets), t)
  }

  /**
   * The loop that fills `RefsByTypes`: for every row, in order, the row's
   * type is (re)assigned the number of rows with that type.
   */
  method CountByType(assets: seq<AssetData>) returns (refsByTypes: map<string, nat>)
    ensures refsByTypes == RefsByTypes(assets)
    ensures forall t :: t in refsByTypes <==> exists i :: 0 <= i < |assets| && assets[i].typeName == t
    ensures forall t :: t in refsByTypes ==> 0 < refsByTypes[t] <= |assets|
  {
    var names := TypeNames(assets);
    refsByTypes := map[];
    var i := 0;
    while i < |names|
      invariant 0 <= i <= |names|
      invariant forall t :: t in refsByTypes <==> t in names[..i]
      invariant forall t :: t in refsByTypes ==> refsByTypes[t] == Count(names, t)
    {
      assert names[..i + 1] == names[..i] + [names[i]];
      refsByTypes := refsByTypes[names[i] := Count(names, names[i])];
      i := i + 1;
    }
    assert names[..i] == names;
    RefsByTypesKeys(assets);
  }

  /** The keys of `RefsByTypes` are the type names of the rows, each counted at least once. */
  lemma RefsByTypesKeys(assets: seq<AssetData>)
    ensures forall t :: t in RefsByTypes(assets) <==> exists i :: 0 <= i < |assets| && assets[i].typeName == t
    ensures forall t :: t in RefsByTypes(assets) ==> 0 < RefsByTypes(assets)[t] <= |assets|
  {
    var names := TypeNames(assets);
    forall t | t in names ensures exists j :: 0 <= j < |assets| && assets[j].typeName == t {
      var j :| 0 <= j < |names| && names[j] == t;
    }
    forall t | (exists j :: 0 <= j < |assets| && assets[j].typeName == t) ensures t in names {
      var j :| 0 <= j < |assets| && assets[j].typeName == t;
      assert names[j] == t;
    }
  }

  /** The type names in the order `Dictionary` enumerates them: order of first assignment. */
  function Dedup(s: seq<string>): (r: seq<string>)
    ensures Distinct(r)
    ensures forall x :: x in r <==> x in s
  {
    if |s| == 0 then []
    else
      var d := Dedup(s[..|s| - 1]);
      var x := s[|s| - 1];
      assert s == s[..|s| - 1] + [x];
      if x in d then d else d + [x]
  }

  /** The number of occurrences of every name of `ts` in `s`, added up. */
  function SumCounts(ts: seq<string>, s: seq<string>): nat {
    if |ts| == 0 then 0 else SumCounts(ts[..|ts| - 1], s) + Count(s, ts[|ts| - 1])
  }

  lemma {:induction false} CountSnoc(s: seq<string>, x: string, t: string)
    ensures Count(s + [x], t) == Count(s, t) + (if x == t then 1 else 0)
    decreases |s|
  {
    if |s| == 0 {
      assert (s + [x])[1..] == [];
    } else {
      assert (s + [x])[1..] == s[1..] + [x];
      CountSnoc(s[1..], x, t);
    }
  }

  /** A name occurs once in a list without repetitions that holds it. */
  lemma {:induction false} CountDistinct(ts: seq<string>, x: string)
    requires Distinct(ts)
    ensures Count(ts, x) == (if x in ts then 1 else 0)
    decreases |ts|
  {
    if |ts| > 0 {
      assert Distinct(ts[1..]) by {
        forall i, j | 0 <= i < j < |ts[1..]| ensures ts[1..][i] != ts[1..][j] {
          assert ts[1..][i] == ts[i + 1] && ts[1..][j] == ts[j + 1];
        }
      }
      CountDistinct(ts[1..], x);
      assert ts[0] !in ts[1..];
    }
  }

  lemma {:induction false} SumCountsSnoc(ts: seq<string>, s: seq<string>, x: string)
    ensures SumCounts(ts, s + [x]) == SumCounts(ts, s) + Count(ts, x)
    decreases |ts|
  {
    if |ts| > 0 {
      var init, last := ts[..|ts| - 1], ts[|ts| - 1];
      SumCountsSnoc(init, s, x);
      CountSnoc(s, x, last);
      assert ts == init + [last];
      CountSnoc(init, last, x);
    }
  }

  /** The per-type counts over the enumerated type names add up to the number of rows. */
  lemma {:induction false} DedupCountsSum(s: seq<string>)
    ensures SumCounts(Dedup(s), s) == |s|
    decreases |s|
  {
    if |s| > 0 {
      var init, x := s[..|s| - 1], s[|s| - 1];
      assert s == init + [x];
      var d := Dedup(init);
      DedupCountsSum(init);
      if x in d {
        SumCountsSnoc(d, init, x);
        CountDistinct(d, x);
      } else {
        SumCountsNewName(d, init, x);
      }
    }
  }

  /** A name new to both lists adds one occurrence, its own, to the sum. */
  lemma SumCountsNewName(ts: seq<string>, s: seq<string>, x: string)
    requires x !in ts && x !in s
    ensures SumCounts(ts + [x], s + [x]) == SumCounts(ts, s) + 1
  {
    assert (ts + [x])[..|ts + [x]| - 1] == ts;
    SumCountsSnoc(ts, s, x);
    CountSnoc(s, x, x);
  }

  /** The type buttons of a result: every listed type once, and their counts cover every row. */
  lemma TypeButtonsCoverRows(assets: seq<AssetData>)
    ensures var order := Dedup(TypeNames(assets));
            && Distinct(order)
            && (forall t :: t in order <==> t in RefsByTypes(assets))
            && SumCounts(order, TypeNames(assets)) == |assets|
  {
    DedupCountsSum(TypeNames(assets));
  }

  // ---------------------------------------------------------------------
  // The whole run
  // ---------------------------------------------------------------------

  /** `Result`: the rows, the counts per type in enumeration order, and the mode of the run. */
  datatype AnalysisResult = AnalysisResult(
    assets: seq<AssetData>,
    refsByTypes: map<string, nat>,
    typeOrder: seq<string>,
    findUnreferencedOnly: bool)

  /** What a run leaves behind: the result, fresh output settings, the pattern log and the icon cache. */
  datatype Run = Run(result: AnalysisResult, output: OutputSettings, ignored: seq<Path>, cache: IconCache)

  /** The rows a run lists, in map order, before sorting. */
  function Listed(project: Project, settings: AnalysisSettings, cache: IconCache): (r: seq<AssetData>)
    requires Distinct(project.paths)
    ensures DistinctPaths(r)
  {
    var m := ReferenceMap(project);
    var keys := Filter(project.paths, ListedBy(project, m, settings, Resolve(cache, project.icons)));
    FilterDistinct(project.paths, ListedBy(project, m, settings, Resolve(cache, project.icons)));
    Rows(project, m, keys)
  }

  /**
   * One run with the service's icon cache `cache`: the walk over the map in
   * path order, the counts per type, fresh output settings showing page 0,
   * and `SortByPath` pressed on sort code 0, which sorts by ascending path.
   */
  function RunAnalysis(project: Project, settings: AnalysisSettings, cache: IconCache): (r: Run)
    requires Distinct(project.paths)
    ensures multiset(r.result.assets) == multiset(Listed(project, settings, cache))
    ensures Sorted(ByPath, Ascending, r.result.assets)
    ensures r.result.refsByTypes == RefsByTypes(Listed(project, settings, cache))
    ensures r.result.typeOrder == Dedup(TypeNames(Listed(project, settings, cache)))
    ensures r.result.findUnreferencedOnly == settings.findUnreferencedOnly
    ensures r.output == FreshOutputSettings.(pageToShow := Some(0), sortType := Code(ByPath, Ascending))
    ensures var m := ReferenceMap(project);
            r.cache == (if cache.None? && TextureConsidered(project, m, settings, project.paths) then Some(project.icons) else cache)
  {
    var m := ReferenceMap(project);
    assert forall i :: 0 <= i < |project.paths| ==> project.paths[i] in m;
    var scan := ScanEntries(project, m, project.paths, settings, cache);
    assert scan.assets == Listed(project, settings, cache);
    var sorted := Press(SortState(0, scan.assets), ByPath);
    var result := AnalysisResult(sorted.assets, RefsByTypes(scan.assets), Dedup(TypeNames(scan.assets)),
                                 settings.findUnreferencedOnly);
    var output := FreshOutputSettings.(pageToShow := Some(0), sortType := sorted.sortType);
    Run(result, output, scan.ignored, scan.cache)
  }

  /**
   * Whether a run lists `k`, stated without the map: its effective count
   * over its referrers among all asset paths, the mode, the type tests
   * with the icon set the service answers from, and the patterns.
   */
  predicate Selected(project: Project, settings: AnalysisSettings, icons: set<Path>, k: Path) {
    var e := EffectiveReferences(project.typeOf, k, RefsOf(project.paths, DepsOf(project, false), k));
    && (!settings.findUnreferencedOnly || e.count == 0)
    && !project.typeOf(k).Unknown?
    && !ExcludedType(project.typeOf(k), k, project.buildScenes, icons)
    && IsValidForOutput(k, settings.ignoredPatterns, settings.matches)
  }

  predicate HasRowFor(assets: seq<AssetData>, k: Path) {
    exists i :: 0 <= i < |assets| && assets[i].path == k
  }

  /** Rows of the same multiset cover the same paths. */
  lemma HasRowPermutation(a: seq<AssetData>, b: seq<AssetData>, k: Path)
    requires multiset(a) == multiset(b)
    ensures HasRowFor(a, k) <==> HasRowFor(b, k)
  {
    if HasRowFor(a, k) {
      var i :| 0 <= i < |a| && a[i].path == k;
      assert a[i] in multiset(b);
      var j :| 0 <= j < |b| && b[j] == a[i];
    }
    if HasRowFor(b, k) {
      var i :| 0 <= i < |b| && b[i].path == k;
      assert b[i] in multiset(a);
      var j :| 0 <= j < |a| && a[j] == b[i];
    }
  }

  /** The map-based listing test agrees with `Selected` on every asset path. */
  lemma ListedBySelected(project: Project, settings: AnalysisSettings, icons: set<Path>, k: Path)
    requires Distinct(project.paths)
    requires k in project.paths
    ensures ListedBy(project, ReferenceMap(project), settings, icons)(k) <==> Selected(project, settings, icons, k)
  {
    GuardedBuild(project.paths, DepsOf(project, false));
  }

  /** The unsorted listing has a row for `k` iff `k` is an asset path the listing test accepts. */
  lemma ListedRows(project: Project, settings: AnalysisSettings, cache: IconCache, k: Path)
    requires Distinct(project.paths)
    ensures HasRowFor(Listed(project, settings, cache), k) <==>
      k in project.paths && ListedBy(project, ReferenceMap(project), settings, Resolve(cache, project.icons))(k)
  {
    var m := ReferenceMap(project);
    var keep := ListedBy(project, m, settings, Resolve(cache, project.icons));
    assert forall i :: 0 <= i < |project.paths| ==> project.paths[i] in m;
    RowsCoverKeys(project, m, Filter(project.paths, keep), k);
  }

  /** The rows of some keys have a row for `k` iff `k` is one of the keys. */
  lemma RowsCoverKeys(project: Project, m: RefMap, keys: seq<Path>, k: Path)
    requires forall i :: 0 <= i < |keys| ==> keys[i] in m
    ensures HasRowFor(Rows(project, m, keys), k) <==> k in keys
  {
    var rows := Rows(project, m, keys);
    if HasRowFor(rows, k) {
      var j :| 0 <= j < |rows| && rows[j].path == k;
      assert keys[j] == k;
    }
    if k in keys {
      var j :| 0 <= j < |keys| && keys[j] == k;
      assert rows[j].path == k;
    }
  }

  /** A run lists an asset path iff it is selected; the icon set is the one the service had, or the live one. */
  lemma RunListsSelected(project: Project, settings: AnalysisSettings, cache: IconCache, k: Path)
    requires Distinct(project.paths)
    ensures HasRowFor(RunAnalysis(project, settings, cache).result.assets, k) <==>
      k in project.paths && Selected(project, settings, Resolve(cache, project.icons), k)
  {
    HasRowPermutation(RunAnalysis(project, settings, cache).result.assets, Listed(project, settings, cache), k);
    ListedRows(project, settings, cache, k);
    if k in project.paths {
      ListedBySelected(project, settings, Resolve(cache, project.icons), k);
    }
  }

  /**
   * In unreferenced-only mode every listed asset is unreferenced: no other
   * asset depends on it, or it is a sprite whose only referrer is its atlas
   * and it carries the warning that says so.
   */
  lemma UnreferencedOnlyListsUnreferenced(project: Project, settings: AnalysisSettings, cache: IconCache)
    requires Distinct(project.paths)
    requires settings.findUnreferencedOnly
    ensures var assets := RunAnalysis(project, settings, cache).result.assets;
            forall i :: 0 <= i < |assets| ==> UnreferencedRow(project, assets[i])
  {
    var assets := RunAnalysis(project, settings, cache).result.assets;
    forall i | 0 <= i < |assets| ensures UnreferencedRow(project, assets[i]) {
      var j := PermutedIndex(assets, Listed(project, settings, cache), i);
      ListedRowUnreferenced(project, settings, cache, j);
    }
  }

  /** A row with count 0 whose asset nothing else depends on, or that carries the atlas warning. */
  predicate UnreferencedRow(project: Project, a: AssetData) {
    a.referencesCount == 0 &&
    ((forall p :: p in project.paths && p != a.path ==> a.path !in project.dependencies(p, false))
     || a.warning != "")
  }

  /** Where the `i`-th element of `a` sits in a permutation `b` of it. */
  lemma PermutedIndex(a: seq<AssetData>, b: seq<AssetData>, i: nat) returns (j: nat)
    requires multiset(a) == multiset(b) && i < |a|
    ensures j < |b| && b[j] == a[i]
  {
    assert a[i] in multiset(b);
    j :| 0 <= j < |b| && b[j] == a[i];
  }

  /** The unsorted rows of an unreferenced-only run are unreferenced. */
  lemma ListedRowUnreferenced(project: Project, settings: AnalysisSettings, cache: IconCache, j: nat)
    requires Distinct(project.paths)
    requires settings.findUnreferencedOnly
    requires j < |Listed(project, settings, cache)|
    ensures UnreferencedRow(project, Listed(project, settings, cache)[j])
  {
    var listed := Listed(project, settings, cache);
    var k := listed[j].path;
    assert HasRowFor(listed, k);
    ListedRows(project, settings, cache, k);
    ListedBySelected(project, settings, Resolve(cache, project.icons), k);
    GuardedBuild(project.paths, DepsOf(project, false));
    Unreferenced(project.paths, DepsOf(project, false), k);
  }

  /** `a` without its element at `k`. */
  lemma DropOne(a: seq<AssetData>, k: nat)
    requires k < |a|
    ensures var rest := a[..k] + a[k + 1..];
            && multiset(rest) == multiset(a) - multiset{a[k]}
            && (forall r :: 0 <= r < |rest| ==> rest[r] == a[if r < k then r else r + 1])
            && (DistinctPaths(a) ==> DistinctPaths(rest))
  {
    var rest := a[..k] + a[k + 1..];
    DropOneIndex(a, k);
    DropOneMultiset(a, k);
    if DistinctPaths(a) {
      forall i, j | 0 <= i < j < |rest| ensures rest[i].path != rest[j].path {
        assert rest[i] == a[if i < k then i else i + 1];
        assert rest[j] == a[if j < k then j else j + 1];
      }
    }
  }

  /** The elements after the dropped one move down by one. */
  lemma DropOneIndex(a: seq<AssetData>, k: nat)
    requires k < |a|
    ensures var rest := a[..k] + a[k + 1..];
            forall r :: 0 <= r < |rest| ==> rest[r] == a[if r < k then r else r + 1]
  {
  }

  /** Dropping one element removes one occurrence of it. */
  lemma DropOneMultiset(a: seq<AssetData>, k: nat)
    requires k < |a|
    ensures multiset(a[..k] + a[k + 1..]) == multiset(a) - multiset{a[k]}
  {
    assert a == a[..k] + [a[k]] + a[k + 1..];
    assert multiset(a) == multiset(a[..k]) + multiset{a[k]} + multiset(a[k + 1..]);
  }

  /** A permutation of a list with distinct paths has distinct paths. */
  lemma {:induction false} DistinctPathsPermutation(a: seq<AssetData>, b: seq<AssetData>)
    requires multiset(a) == multiset(b)
    requires DistinctPaths(a)
    ensures DistinctPaths(b)
    decreases |b|
  {
    if |b| > 0 {
      assert b[0] in multiset(a);
      var k :| 0 <= k < |a| && a[k] == b[0];
      var rest := a[..k] + a[k + 1..];
      DropOne(a, k);
      assert multiset(b[1..]) == multiset(rest) by {
        assert b == [b[0]] + b[1..];
        assert multiset(b[1..]) == multiset(b) - multiset{b[0]};
      }
      DistinctPathsPermutation(rest, b[1..]);
      forall i, j | 0 <= i < j < |b| ensures b[i].path != b[j].path {
        assert b[j] == b[1..][j - 1];
        if i == 0 {
          assert b[j] in multiset(rest);
          OtherPath(a, k, b[j]);
        } else {
          assert b[i] == b[1..][i - 1];
        }
      }
    }
  }

  /** In a list with distinct paths, what remains after dropping row `k` has paths other than row `k`'s. */
  lemma OtherPath(a: seq<AssetData>, k: nat, x: AssetData)
    requires k < |a| && DistinctPaths(a)
    requires x in multiset(a[..k] + a[k + 1..])
    ensures x.path != a[k].path
  {
    var rest := a[..k] + a[k + 1..];
    DropOneIndex(a, k);
    var r :| 0 <= r < |rest| && rest[r] == x;
    assert rest[r] == a[if r < k then r else r + 1];
  }

  /**
   * `List.Sort` is not stable, but asset paths are distinct, so the order a
   * run leaves is the only path-ascending order of the listed rows.
   */
  lemma RunOrderIsDetermined(project: Project, settings: AnalysisSettings, cache: IconCache, s: seq<AssetData>)
    requires Distinct(project.paths)
    requires multiset(s) == multiset(Listed(project, settings, cache))
    requires Sorted(ByPath, Ascending, s)
    ensures s == RunAnalysis(project, settings, cache).result.assets
  {
    var assets := RunAnalysis(project, settings, cache).result.assets;
    DistinctPathsPermutation(Listed(project, settings, cache), s);
    PathOrderUnique(s, assets);
  }
}
