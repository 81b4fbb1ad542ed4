/**
 * Which assets an analysis may report: the asset-type classifiers of the
 * windows, with their lazily loaded player-icon list, and the ignore-pattern
 * filter applied to the paths that survive them.
 */
module Classify {
  import opened Common
  import opened Strings
  import opened Assets

  /**
   * The helper's `_iconPaths` field: `None` until the first Texture2D is
   * classified, then the player icons of every build target group as they
   * were at that moment.
   */
  type IconCache = Option<set<Path>>

  /** The icon set a lookup answers from: the cached one if loaded, otherwise the live one it loads. */
  function Resolve(cache: IconCache, live: set<Path>): set<Path> {
    if cache.Some? then cache.value else live
  }

  /** A classification answer and the helper's icon cache after computing it. */
  datatype Verdict = Verdict(ok: bool, cache: IconCache)

  /** `UsedAsProjectIcon` / `UsedAsIcon`: loads the icons on first use, then answers from the cache. */
  function UsedAsIcon(cache: IconCache, live: set<Path>, path: Path): (v: Verdict)
    ensures v.ok <==> path in Resolve(cache, live)
    ensures v.cache == Some(Resolve(cache, live))
    ensures cache.Some? ==> v.cache == cache
  {
    var icons := if cache.None? then live else cache.value;
    Verdict(path in icons, Some(icons))
  }

  /** The asset types no window ever reports: scripts, folders, build scenes and player icons. */
  predicate ExcludedType(t: AssetType, path: Path, buildScenes: set<Path>, icons: set<Path>) {
    t.MonoScript? || t.DefaultAsset? || (t.SceneAsset? && path in buildScenes) || (t.Texture2D? && path in icons)
  }

  /** The classifiers leave the icon cache alone unless they test a Texture2D, and then they load it once. */
  predicate CacheStep(t: AssetType, before: IconCache, after: IconCache, live: set<Path>) {
    if t.Texture2D? then after == Some(Resolve(before, live)) else after == before
  }

  /**
   * One classification followed by the rest of a walk: the cache ends filled
   * exactly when it started empty and this entry or a later classified one
   * is a texture.
   */
  lemma CacheWalkStep(t: AssetType, before: IconCache, between: IconCache, after: IconCache, live: set<Path>, later: bool)
    requires CacheStep(t, before, between, live)
    requires after == (if between.None? && later then Some(live) else between)
    ensures after == (if before.None? && (t.Texture2D? || later) then Some(live) else before)
  {
  }

  /**
   * The type tests shared by every classifier: scripts and folders fail,
   * a scene fails when it is a build scene, a texture when it is a player icon.
   */
  function TypeTests(project: Project, cache: IconCache, path: Path): (v: Verdict)
    ensures v.ok <==> !ExcludedType(project.typeOf(path), path, project.buildScenes, Resolve(cache, project.icons))
    ensures CacheStep(project.typeOf(path), cache, v.cache, project.icons)
  {
    var t := project.typeOf(path);
    if t == MonoScript || t == DefaultAsset then Verdict(false, cache)
    else if t == SceneAsset && path in project.buildScenes then Verdict(false, cache)
    else if t == Texture2D then
      var used := UsedAsIcon(cache, project.icons, path);
      Verdict(!used.ok, used.cache)
    else Verdict(true, cache)
  }

  /**
   * `ProjectAssetsAnalysisUtilities.IsValidAssetType` (Packages window): a
   * null type fails first; otherwise the type tests decide. `validForOutput`
   * only chooses whether the null case is logged, so it is not modelled.
   */
  function IsValidAssetType(project: Project, cache: IconCache, path: Path): (v: Verdict)
    ensures v.ok <==> (!project.typeOf(path).Unknown? &&
      !ExcludedType(project.typeOf(path), path, project.buildScenes, Resolve(cache, project.icons)))
    ensures CacheStep(project.typeOf(path), cache, v.cache, project.icons)
  {
    if project.typeOf(path).Unknown? then Verdict(false, cache)
    else TypeTests(project, cache, path)
  }

  /** `ProjectAssetsAnalysisHelper.IsValidAssetType` (the `Editor/AllProjectAssetsReferencesWindow` classifier): the same tests without the null check. */
  function IsValidAssetTypeNoNullCheck(project: Project, cache: IconCache, path: Path): (v: Verdict)
    ensures v.ok <==> !ExcludedType(project.typeOf(path), path, project.buildScenes, Resolve(cache, project.icons))
    ensures CacheStep(project.typeOf(path), cache, v.cache, project.icons)
  {
    TypeTests(project, cache, path)
  }

  const ResourcesFolder: string := "/Resources/"
  const EditorFolder: string := "/Editor/"

  /** A path under a `Resources` or `Editor` folder: the `DependenciesHunter/` windows never list it. */
  predicate InSkippedFolder(path: Path) {
    Contains(path, ResourcesFolder) || Contains(path, EditorFolder)
  }

  /** `ProjectAssetsAnalysisHelper.IsTargetOfAnalysis`: the type tests, then the folder test. */
  function IsTargetOfAnalysis(project: Project, cache: IconCache, path: Path): (v: Verdict)
    ensures v.ok <==> !ExcludedType(project.typeOf(path), path, project.buildScenes, Resolve(cache, project.icons))
                      && !InSkippedFolder(path)
    ensures CacheStep(project.typeOf(path), cache, v.cache, project.icons)
  {
    var typed := TypeTests(project, cache, path);
    if !typed.ok then typed
    else if Contains(path, ResourcesFolder) || Contains(path, EditorFolder) then Verdict(false, typed.cache)
    else Verdict(true, typed.cache)
  }

  /** `UnusedAssetsWindow.ShouldBeChecked`: the type tests, then the two folder tests one after the other. */
  function ShouldBeChecked(project: Project, cache: IconCache, path: Path): (v: Verdict)
    ensures v.ok <==> !ExcludedType(project.typeOf(path), path, project.buildScenes, Resolve(cache, project.icons))
                      && !InSkippedFolder(path)
    ensures CacheStep(project.typeOf(path), cache, v.cache, project.icons)
  {
    var typed := TypeTests(project, cache, path);
    if !typed.ok then typed
    else if Contains(path, ResourcesFolder) then Verdict(false, typed.cache)
    else if Contains(path, EditorFolder) then Verdict(false, typed.cache)
    else Verdict(true, typed.cache)
  }

  /** The null check is the only difference between the two `IsValidAssetType` versions. */
  lemma NullCheckIsTheOnlyDifference(project: Project, cache: IconCache, path: Path)
    ensures IsValidAssetTypeNoNullCheck(project, cache, path).ok <==>
      IsValidAssetType(project, cache, path).ok || project.typeOf(path).Unknown?
    ensures IsValidAssetTypeNoNullCheck(project, cache, path).cache == IsValidAssetType(project, cache, path).cache
  {
  }

  /** An unknown type is accepted by the `Editor/AllProjectAssetsReferencesWindow` classifier and rejected by the null-checking one. */
  lemma UnknownType(project: Project, cache: IconCache, path: Path)
    requires project.typeOf(path).Unknown?
    ensures IsValidAssetTypeNoNullCheck(project, cache, path).ok
    ensures !IsValidAssetType(project, cache, path).ok
  {
  }

  /** `ShouldBeChecked` and `IsTargetOfAnalysis` have the same decision table and the same cache effect. */
  lemma ShouldBeCheckedIsTargetOfAnalysis(project: Project, cache: IconCache, path: Path)
    ensures ShouldBeChecked(project, cache, path) == IsTargetOfAnalysis(project, cache, path)
  {
  }

  /** `IsTargetOfAnalysis` is the no-null-check type test narrowed by the folder test. */
  lemma TargetIsValidOutsideSkippedFolders(project: Project, cache: IconCache, path: Path)
    ensures IsTargetOfAnalysis(project, cache, path).ok <==>
      IsValidAssetTypeNoNullCheck(project, cache, path).ok && !InSkippedFolder(path)
  {
  }

  // ---------------------------------------------------------------------
  // Ignore patterns
  // ---------------------------------------------------------------------

  /** One pattern lets `path` through: it is empty (`string.IsNullOrEmpty`) or `Regex.Match` fails. */
  predicate PatternPasses(path: Path, pattern: string, matches: (Path, string) -> bool) {
    pattern == [] || !matches(path, pattern)
  }

  /** `IsValidForOutput` as the LINQ `All` evaluates it: pattern by pattern, stopping at the first rejection. */
  function IsValidForOutput(path: Path, patterns: seq<string>, matches: (Path, string) -> bool): bool
    decreases |patterns|
  {
    |patterns| == 0 || (PatternPasses(path, patterns[0], matches) && IsValidForOutput(path, patterns[1..], matches))
  }

  /** A path is valid for output iff every pattern is empty or does not match it. */
  lemma {:induction false} ValidForOutputIff(path: Path, patterns: seq<string>, matches: (Path, string) -> bool)
    ensures IsValidForOutput(path, patterns, matches) <==>
      forall i :: 0 <= i < |patterns| ==> PatternPasses(path, patterns[i], matches)
    decreases |patterns|
  {
    if |patterns| > 0 {
      ValidForOutputIff(path, patterns[1..], matches);
      assert forall i :: 1 <= i < |patterns| ==> patterns[i] == patterns[1..][i - 1];
    }
  }

  /** A list of empty patterns, in particular the empty list, ignores nothing. */
  lemma EmptyPatternsIgnoreNothing(path: Path, patterns: seq<string>, matches: (Path, string) -> bool)
    requires forall i :: 0 <= i < |patterns| ==> patterns[i] == []
    ensures IsValidForOutput(path, patterns, matches)
  {
    ValidForOutputIff(path, patterns, matches);
  }

  /** Patterns combine by conjunction, so adding a pattern can only turn valid into ignored. */
  lemma {:induction false} ValidForOutputAppend(path: Path, ps: seq<string>, qs: seq<string>,
                                                matches: (Path, string) -> bool)
    ensures IsValidForOutput(path, ps + qs, matches) <==>
      IsValidForOutput(path, ps, matches) && IsValidForOutput(path, qs, matches)
    decreases |ps|
  {
    if |ps| == 0 {
      assert ps + qs == qs;
    } else {
      assert (ps + qs)[0] == ps[0];
      assert (ps + qs)[1..] == ps[1..] + qs;
      ValidForOutputAppend(path, ps[1..], qs, matches);
    }
  }

  /** `ProjectAssetsAnalysisHelper.IsValidForOutput`: the `foreach` loop with its early `return false`. */
  method IsValidForOutputLoop(path: Path, patterns: seq<string>, matches: (Path, string) -> bool) returns (valid: bool)
    ensures valid <==> forall i :: 0 <= i < |patterns| ==> PatternPasses(path, patterns[i], matches)
  {
    var i := 0;
    while i < |patterns|
      invariant 0 <= i <= |patterns|
      invariant forall k :: 0 <= k < i ==> PatternPasses(path, patterns[k], matches)
    {
      if patterns[i] != [] && matches(path, patterns[i]) {
        return false;
      }
      i := i + 1;
    }
    return true;
  }
}
