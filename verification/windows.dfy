/**
 * The simple listing windows: the two `DependenciesHunter/` windows, with
 * one toggle per listed asset and a "Remove" that deletes the toggled
 * ones, and the `Editor/` all-project window with its pages.
 */
module Windows {
  import opened Common
  import opened Strings
  import opened Assets
  import opened ReverseMap
  import opened Classify
  import opened Lookup
  import opened Query

  // ---------------------------------------------------------------------
  // The listing rule of the `DependenciesHunter/` windows
  // ---------------------------------------------------------------------

  /** Which classifier a window calls; the two have the same decision table. */
  datatype Classifier = TargetOfAnalysis | ShouldBeCheckedRule

  function Check(c: Classifier, project: Project, cache: IconCache, path: Path): (v: Verdict)
    ensures v.ok <==> !ExcludedType(project.typeOf(path), path, project.buildScenes, Resolve(cache, project.icons))
                      && !InSkippedFolder(path)
    ensures CacheStep(project.typeOf(path), cache, v.cache, project.icons)
  {
    match c
    case TargetOfAnalysis => IsTargetOfAnalysis(project, cache, path)
    case ShouldBeCheckedRule => ShouldBeChecked(project, cache, path)
  }

  /** A listed asset: a key without referrers that the classifier accepts with the icon set `icons`. */
  function UnusedBy(project: Project, m: RefMap, icons: set<Path>): Path -> bool {
    k => k in m && |m[k]| == 0 && !ExcludedType(project.typeOf(k), k, project.buildScenes, icons) && !InSkippedFolder(k)
  }

  /** The assets found and the icon cache after the walk. */
  datatype TargetScan = TargetScan(unused: seq<Path>, cache: IconCache)

  /**
   * The `foreach` over the map: the classifier runs on every entry first
   * (so any texture loads the icons), and the entry is listed when it
   * passes and has no referrers.
   */
  function ScanTargets(project: Project, m: RefMap, keys: seq<Path>, c: Classifier, cache: IconCache): (r: TargetScan)
    requires forall i :: 0 <= i < |keys| ==> keys[i] in m
    ensures r.unused == Filter(keys, UnusedBy(project, m, Resolve(cache, project.icons)))
    ensures r.cache == (if cache.None? && exists i :: 0 <= i < |keys| && project.typeOf(keys[i]).Texture2D?
                        then Some(project.icons) else cache)
    decreases |keys|
  {
    if |keys| == 0 then TargetScan([], cache)
    else
      var k := keys[0];
      var v := Check(c, project, cache, k);
      assert Resolve(v.cache, project.icons) == Resolve(cache, project.icons);
      var rest := ScanTargets(project, m, keys[1..], c, v.cache);
      if v.ok && |m[k]| == 0 then TargetScan([k] + rest.unused, rest.cache)
      else TargetScan(rest.unused, rest.cache)
  }

  // ---------------------------------------------------------------------
  // Window state
  // ---------------------------------------------------------------------

  datatype WindowKind = AllProjectWindow | UnusedAssetsWindow

  /**
   * `_unusedAssets`, `_toggles`, `_ignoreProjectChange`, the icon cache (of
   * the helper service, or of the window itself) and the window's hunter.
   */
  datatype ListWindow = ListWindow(
    kind: WindowKind,
    unused: seq<Path>,
    toggles: map<Path, bool>,
    ignoreProjectChange: bool,
    cache: IconCache,
    hunter: Option<Hunter>)

  /** Every listed asset has exactly one toggle. */
  predicate TogglesMatch(w: ListWindow) {
    Distinct(w.unused) && w.toggles.Keys == set k | k in w.unused
  }

  /** Both toggle states for every key of `keys`. */
  function AllToggles(keys: seq<Path>, on: bool): (t: map<Path, bool>)
    ensures t.Keys == set k | k in keys
    ensures forall k :: k in t ==> t[k] == on
  {
    map k | k in keys :: on
  }

  /**
   * `Clear`: empties the list and the toggles; the unused-assets window also
   * forgets its icons and its hunter, while the all-project window keeps its
   * service and with it the icon cache.
   */
  function Clear(w: ListWindow): (r: ListWindow)
    ensures r.unused == [] && r.toggles == map[]
    ensures r.kind == w.kind && r.ignoreProjectChange == w.ignoreProjectChange
    ensures w.kind == AllProjectWindow ==> r.cache == w.cache && r.hunter == w.hunter
    ensures w.kind == UnusedAssetsWindow ==> r.cache.None? && r.hunter.None?
  {
    match w.kind
    case AllProjectWindow => w.(unused := [], toggles := map[])
    case UnusedAssetsWindow => w.(unused := [], toggles := map[], cache := None, hunter := None)
  }

  /** A window after a listing, and the dependency whose lookup threw, if any. */
  datatype Listing = Listing(window: ListWindow, missing: Option<Path>)

  /**
   * `ListAllUnusedAssetsInProject` (all-project window) and
   * `SearchForUnusedAssets` (unused-assets window): clear, build the direct
   * reverse map with the unguarded builder, and list. A throw aborts the
   * listing after the clear. New toggles start off in the first window and
   * on in the second.
   */
  function Search(w: ListWindow, project: Project): (r: Listing)
    requires Distinct(project.paths)
    ensures TogglesMatch(r.window)
    ensures r.window.kind == w.kind && r.window.ignoreProjectChange == w.ignoreProjectChange
    ensures r.missing.Some? <==> Build(project.paths, DepsOf(project, false), false).Thrown?
    ensures r.missing.Some? ==> r.window.unused == []
    ensures r.missing.None? ==>
      r.window.unused == Filter(project.paths, UnusedBy(project, Build(project.paths, DepsOf(project, false), false).refs,
                                                        Resolve(Clear(w).cache, project.icons)))
    ensures forall k :: k in r.window.toggles ==> r.window.toggles[k] == (w.kind == UnusedAssetsWindow)
    ensures r.missing.Some? ==> r.window.cache == Clear(w).cache
    ensures r.missing.None? ==>
      r.window.cache == (if Clear(w).cache.None? && exists i :: 0 <= i < |project.paths| && project.typeOf(project.paths[i]).Texture2D?
                         then Some(project.icons) else Clear(w).cache)
    ensures w.kind == AllProjectWindow ==> r.window.hunter == w.hunter
  {
    var cleared := Clear(w);
    var classifier := if w.kind == AllProjectWindow then TargetOfAnalysis else ShouldBeCheckedRule;
    var built :=
      if w.kind == AllProjectWindow then
        var f := Build(project.paths, DepsOf(project, false), false);
        (if f.Thrown? then Step(NewHunter, Some(f.missing)) else Step(NewHunter.(direct := Some(f.refs)), None))
      else CreateMapIfNeeded(NewHunter, project, true, false);
    var window := if w.kind == AllProjectWindow then cleared else cleared.(hunter := Some(built.hunter));
    if built.missing.Some? then Listing(window, built.missing)
    else
      var m := built.hunter.direct.value;
      var scan := ScanTargets(project, m, project.paths, classifier, cleared.cache);
      FilterDistinct(project.paths, UnusedBy(project, m, Resolve(cleared.cache, project.icons)));
      Listing(window.(unused := scan.unused, toggles := AllToggles(scan.unused, w.kind == UnusedAssetsWindow),
                      cache := scan.cache), None)
  }

  /**
   * What a listing lists, stated over the referrers themselves: on a
   * project whose dependencies all name known assets, an asset is listed
   * iff no other asset depends on it directly and the classifier accepts it.
   */
  lemma SearchListsUnreferencedTargets(w: ListWindow, project: Project, k: Path)
    requires Distinct(project.paths)
    requires AllKnown(project.paths, DepsOf(project, false), set p | p in project.paths)
    ensures var r := Search(w, project);
            && r.missing.None?
            && (k in r.window.unused <==>
                && k in project.paths
                && (forall a :: a in project.paths && a != k ==> k !in project.dependencies(a, false))
                && !ExcludedType(project.typeOf(k), k, project.buildScenes, Resolve(Clear(w).cache, project.icons))
                && !InSkippedFolder(k))
  {
    var deps := DepsOf(project, false);
    UnguardedBuild(project.paths, deps);
    Unreferenced(project.paths, deps, k);
  }

  /** `SetToggles(on)`: every toggle takes the value `on`; the set of toggles does not change. */
  function SetToggles(w: ListWindow, on: bool): (r: ListWindow)
    ensures r.toggles.Keys == w.toggles.Keys
    ensures forall k :: k in r.toggles ==> r.toggles[k] == on
    ensures r == w.(toggles := r.toggles)
  {
    w.(toggles := map k | k in w.toggles :: on)
  }

  /** `OnProjectChange`: clears the window unless a removal is under way. */
  function ProjectChange(w: ListWindow): (r: ListWindow)
    ensures w.ignoreProjectChange ==> r == w
    ensures !w.ignoreProjectChange ==> r == Clear(w)
  {
    if w.ignoreProjectChange then w else Clear(w)
  }

  /** A toggled asset, as `_toggles[asset]` reads it. */
  function Toggled(toggles: map<Path, bool>): Path -> bool {
    k => k in toggles && toggles[k]
  }

  /**
   * The deletion loop of `Remove`: with `_ignoreProjectChange` set, each
   * toggled asset is deleted in list order, and the project change every
   * deletion causes leaves the window as it was.
   */
  method DeleteToggled(w: ListWindow) returns (deleted: seq<Path>, after: ListWindow)
    requires TogglesMatch(w)
    ensures deleted == Filter(w.unused, Toggled(w.toggles))
    ensures after == w.(ignoreProjectChange := true)
  {
    after := w.(ignoreProjectChange := true);
    deleted := [];
    var i := 0;
    while i < |w.unused|
      invariant 0 <= i <= |w.unused|
      invariant after == w.(ignoreProjectChange := true)
      invariant deleted == Filter(w.unused[..i], Toggled(w.toggles))
    {
      var asset := after.unused[i];
      assert w.unused[..i + 1] == w.unused[..i] + [asset];
      FilterAppend(w.unused[..i], [asset], Toggled(w.toggles));
      if after.toggles[asset] {
        deleted := deleted + [asset];
        after := ProjectChange(after);
      }
      i := i + 1;
    }
    assert w.unused[..i] == w.unused;
  }

  /**
   * `Remove`: deletes the toggled assets, clears the flag and lists again on
   * `projectAfter`, the project as the deletions left it.
   */
  method Remove(w: ListWindow, projectAfter: Project) returns (deleted: seq<Path>, r: Listing)
    requires TogglesMatch(w)
    requires Distinct(projectAfter.paths)
    ensures deleted == Filter(w.unused, Toggled(w.toggles))
    ensures r == Search(w.(ignoreProjectChange := false), projectAfter)
    ensures forall i :: 0 <= i < |r.window.unused| ==> r.window.unused[i] in projectAfter.paths
  {
    var during;
    deleted, during := DeleteToggled(w);
    r := Search(during.(ignoreProjectChange := false), projectAfter);
  }

  /** When the deleted assets are gone from the project, none of them is listed again. */
  lemma RemovedAssetsStayGone(w: ListWindow, projectAfter: Project, deleted: seq<Path>)
    requires Distinct(projectAfter.paths)
    requires forall p :: p in deleted ==> p !in projectAfter.paths
    ensures forall p :: p in deleted ==> p !in Search(w.(ignoreProjectChange := false), projectAfter).window.unused
  {
  }

  // ---------------------------------------------------------------------
  // The `Editor/` all-project window
  // ---------------------------------------------------------------------

  /** `_unusedAssets`, `_pageToShow`, `_launchedAtLeastOnce` and the helper's icon cache. */
  datatype EditorWindow = EditorWindow(unused: seq<Path>, page: Option<int>, launched: bool, cache: IconCache)

  /** A key without referrers that the no-null-check classifier accepts and no pattern ignores. */
  function EditorListedBy(project: Project, m: RefMap, icons: set<Path>, patterns: seq<string>,
                          matches: (Path, string) -> bool): Path -> bool {
    k => k in m && |m[k]| == 0 && !ExcludedType(project.typeOf(k), k, project.buildScenes, icons)
         && IsValidForOutput(k, patterns, matches)
  }

  /**
   * The `foreach` of `ListAllUnusedAssetsInProject`: only entries without
   * referrers are classified, and the patterns are consulted only for the
   * valid ones.
   */
  function ScanEditor(project: Project, m: RefMap, keys: seq<Path>, patterns: seq<string>,
                      matches: (Path, string) -> bool, cache: IconCache): (r: TargetScan)
    requires forall i :: 0 <= i < |keys| ==> keys[i] in m
    ensures r.unused == Filter(keys, EditorListedBy(project, m, Resolve(cache, project.icons), patterns, matches))
    ensures r.cache == (if cache.None? && exists i :: 0 <= i < |keys| && |m[keys[i]]| == 0 && project.typeOf(keys[i]).Texture2D?
                        then Some(project.icons) else cache)
    decreases |keys|
  {
    if |keys| == 0 then TargetScan([], cache)
    else
      var k := keys[0];
      if |m[k]| != 0 then ScanEditor(project, m, keys[1..], patterns, matches, cache)
      else
        var v := IsValidAssetTypeNoNullCheck(project, cache, k);
        assert Resolve(v.cache, project.icons) == Resolve(cache, project.icons);
        var validForOutput := if v.ok then IsValidForOutput(k, patterns, matches) else false;
        var rest := ScanEditor(project, m, keys[1..], patterns, matches, v.cache);
        if validForOutput then TargetScan([k] + rest.unused, rest.cache)
        else TargetScan(rest.unused, rest.cache)
  }

  /**
   * "Run Analysis": shows all pages, marks the window launched, clears the
   * list and refills it from the guarded reverse map, in path order.
   */
  function ListAllEditor(w: EditorWindow, project: Project, patterns: seq<string>,
                         matches: (Path, string) -> bool): (r: EditorWindow)
    requires Distinct(project.paths)
    ensures r.page.None? && r.launched
    ensures r.unused == Filter(project.paths, EditorListedBy(project, ReferenceMap(project),
                                                             Resolve(w.cache, project.icons), patterns, matches))
    ensures var m := ReferenceMap(project);
            r.cache == (if w.cache.None? && exists i :: 0 <= i < |project.paths| && |m[project.paths[i]]| == 0
                                                       && project.typeOf(project.paths[i]).Texture2D?
                        then Some(project.icons) else w.cache)
  {
    var m := ReferenceMap(project);
    var scan := ScanEditor(project, m, project.paths, patterns, matches, w.cache);
    EditorWindow(scan.unused, None, true, scan.cache)
  }

  /** The page is "All" or one of the page buttons drawn for the current list. */
  predicate PageInRange(w: EditorWindow) {
    w.page.None? || 0 <= w.page.value < PagesCount(|w.unused|)
  }

  /** Button `i + 1` is drawn only for `i < pagesCount`, and only when the list is not empty. */
  function PressPage(w: EditorWindow, i: int): (r: EditorWindow)
    requires |w.unused| > 0 && 0 <= i < PagesCount(|w.unused|)
    ensures PageInRange(r) && r.page == Some(i)
    ensures r.unused == w.unused && r.launched == w.launched && r.cache == w.cache
  {
    w.(page := Some(i))
  }

  /** The "All" button, drawn only when the list is not empty. */
  function PressAll(w: EditorWindow): (r: EditorWindow)
    requires |w.unused| > 0
    ensures PageInRange(r) && r.page.None?
    ensures r.unused == w.unused && r.launched == w.launched && r.cache == w.cache
  {
    w.(page := None)
  }

  /**
   * This window never clamps its page, and need not: a run resets the page
   * to "All" and only the drawn buttons set it, so the page always lies
   * within the list and shows rows `[page*50, (page+1)*50)` of it.
   */
  lemma EditorPageStaysInRange(w: EditorWindow, project: Project, patterns: seq<string>,
                               matches: (Path, string) -> bool, i: int)
    requires Distinct(project.paths)
    ensures PageInRange(ListAllEditor(w, project, patterns, matches))
    ensures PageInRange(w) && w.page.Some? ==>
      PageStart(w.page, |w.unused|) == w.page.value * PageSize
      && PageEnd(w.page, |w.unused|) == Min((w.page.value + 1) * PageSize, |w.unused|)
  {
    if PageInRange(w) && w.page.Some? {
      PagesCountIsCeiling(|w.unused|);
    }
  }

  // ---------------------------------------------------------------------
  // Drawing the rows of the `Editor/` all-project window
  // ---------------------------------------------------------------------

  /**
   * The type label a row draws, as written: `Type.ToString()` with both
   * Unity namespaces removed. The call dereferences the type, so it has a
   * value only for a non-null type; a null one throws.
   */
  function RowLabelAsWritten(t: AssetType): (text: string)
    requires !t.Unknown?
    ensures text == TypeName(t)
  {
    RemoveAll(RemoveAll(FullName(t), EnginePrefix), EditorPrefix)
  }

  /** Every row the current page shows has a non-null type, so drawing it does not throw. */
  predicate DrawsWithoutThrowing(w: EditorWindow, typeOf: Path -> AssetType) {
    forall i :: PageStart(w.page, |w.unused|) <= i < PageEnd(w.page, |w.unused|) ==> !typeOf(w.unused[i]).Unknown?
  }

  /** The labels of the shown rows as the window draws them. */
  function EditorRowLabelsAsWritten(w: EditorWindow, typeOf: Path -> AssetType): (labels: seq<string>)
    requires DrawsWithoutThrowing(w, typeOf)
    ensures |labels| == PageEnd(w.page, |w.unused|) - PageStart(w.page, |w.unused|)
  {
    var lo, hi := PageStart(w.page, |w.unused|), PageEnd(w.page, |w.unused|);
    seq(hi - lo, i requires 0 <= i < hi - lo => RowLabelAsWritten(typeOf(w.unused[lo + i])))
  }

  /**
   * The labels of the shown rows with the null check `AssetData.Create`
   * makes: a null type is drawn as "Unknown Type".
   */
  function EditorRowLabels(w: EditorWindow, typeOf: Path -> AssetType): (labels: seq<string>)
    ensures |labels| == PageEnd(w.page, |w.unused|) - PageStart(w.page, |w.unused|)
    ensures forall i :: 0 <= i < |labels| ==>
      var t := typeOf(w.unused[PageStart(w.page, |w.unused|) + i]);
      labels[i] == (if t.Unknown? then UnknownTypeName else RowLabelAsWritten(t))
  {
    NullSafeLabels(w.unused[PageStart(w.page, |w.unused|)..PageEnd(w.page, |w.unused|)], typeOf)
  }

  /** The label `AssetData.Create` gives each path: "Unknown Type" for a null type, the drawn label otherwise. */
  function NullSafeLabels(paths: seq<Path>, typeOf: Path -> AssetType): (labels: seq<string>)
    ensures |labels| == |paths|
    ensures forall i :: 0 <= i < |paths| ==>
      var t := typeOf(paths[i]);
      labels[i] == (if t.Unknown? then UnknownTypeName else RowLabelAsWritten(t))
  {
    seq(|paths|, i requires 0 <= i < |paths| => TypeName(typeOf(paths[i])))
  }

  /** Wherever the rows can be drawn as written, the null-safe labels are the same. */
  lemma RowLabelsAgree(w: EditorWindow, typeOf: Path -> AssetType)
    requires DrawsWithoutThrowing(w, typeOf)
    ensures EditorRowLabels(w, typeOf) == EditorRowLabelsAsWritten(w, typeOf)
  {
  }

  /** A project of one asset with a null main type that nothing references. */
  function UntypedProject(): (project: Project)
    ensures project.paths == ["a"] && project.typeOf("a").Unknown?
  {
    Project(["a"], (p, recursive) => [], p => Unknown, {}, {}, p => false, p => 0)
  }

  /**
   * The no-null-check classifier lets a null-typed asset into the list, so
   * the next draw of the window reaches `type.ToString()` on null.
   */
  lemma EditorListsUntypedAsset()
    ensures var w := ListAllEditor(EditorWindow([], None, false, None), UntypedProject(), [], (p, pattern) => false);
            && w.unused == ["a"]
            && !DrawsWithoutThrowing(w, UntypedProject().typeOf)
  {
    var project := UntypedProject();
    var m := ReferenceMap(project);
    GuardedBuild(project.paths, DepsOf(project, false));
    assert "a" in project.paths;
    assert "a" in m && m["a"] == [];
    assert !ExcludedType(project.typeOf("a"), "a", project.buildScenes, Resolve(None, project.icons));
    assert IsValidForOutput("a", [], (p, pattern) => false);
    var keep := EditorListedBy(project, m, Resolve(None, project.icons), [], (p, pattern) => false);
    assert keep("a");
    assert Filter(project.paths, keep) == ["a"];
  }
}
