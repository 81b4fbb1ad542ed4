/**
 * "Find references" for a selection: the services that build a reverse map
 * lazily, keep it for later calls, and answer each selected object with its
 * list of referrers.
 */
module Lookup {
  import opened Common
  import opened Assets
  import opened ReverseMap

  /** A selected `UnityEngine.Object`; `pathOf` is `AssetDatabase.GetAssetPath`. */
  type ObjectId = nat

  /** `Dictionary<Object, List<string>>`: the referrers found for each selected object. */
  type Results = map<ObjectId, seq<Path>>

  /** The list of `p` in `source`, or a new empty list when `source` has no such key. */
  function ListOf(source: RefMap, p: Path): seq<Path> {
    if p in source then source[p] else []
  }

  /**
   * `GetDependencies` / `FindDependencies`: one entry per selected object,
   * added in selection order. `Dictionary.Add` throws on a repeated object,
   * so the selection must not repeat one.
   */
  function FindDependencies(selection: seq<ObjectId>, pathOf: ObjectId -> Path, source: RefMap): (r: Results)
    requires Distinct(selection)
    ensures r.Keys == set o | o in selection
    ensures forall o :: o in r ==> r[o] == ListOf(source, pathOf(o))
    decreases |selection|
  {
    if |selection| == 0 then map[]
    else
      var init := selection[..|selection| - 1];
      var o := selection[|selection| - 1];
      assert selection == init + [o];
      assert Distinct(init) by {
        forall i, j | 0 <= i < j < |init| ensures init[i] != init[j] {
          assert init[i] == selection[i] && init[j] == selection[j];
        }
      }
      var r := FindDependencies(init, pathOf, source);
      if pathOf(o) in source then r[o := source[pathOf(o)]] else r[o := []]
  }

  /** The selection: `None` is a null `Selection.objects` array. */
  type Selection = Option<seq<ObjectId>>

  /** What a lookup returns: the results, or the `KeyNotFoundException` of an unguarded build. */
  datatype Answer = Answer(results: Results) | Failure(missing: Path)

  /** The answer and the service's cached map (`_cachedAssetsMap`) after the call. */
  datatype Lookup = Lookup(answer: Answer, cache: Option<RefMap>)

  /** The selection holds no object twice, or is null. */
  predicate ValidSelection(selection: Selection) {
    selection.Some? ==> Distinct(selection.value)
  }

  /**
   * Fills the cache when it is empty: the build writes straight into the
   * cache field (`out _cachedAssetsMap`), so a build that throws leaves its
   * partial map cached.
   */
  function EnsureMap(cache: Option<RefMap>, project: Project, recursive: bool, guarded: bool): (r: Lookup)
    requires Distinct(project.paths)
    ensures r.cache.Some?
    ensures cache.Some? ==> r == Lookup(Answer(map[]), cache)
    ensures cache.None? ==> r.cache == Some(Build(project.paths, DepsOf(project, recursive), guarded).Map())
    ensures r.answer.Failure? <==> cache.None? && Build(project.paths, DepsOf(project, recursive), guarded).Thrown?
  {
    if cache.Some? then Lookup(Answer(map[]), cache)
    else
      match Build(project.paths, DepsOf(project, recursive), guarded)
      case Filled(m) => Lookup(Answer(map[]), Some(m))
      case Thrown(missing, partial) => Lookup(Failure(missing), Some(partial))
  }

  /**
   * `SelectedAssetsAnalysisHelper.GetReferences` (Editor) and
   * `SelectedAssetsAnalysisUtilities.GetReferences` (Packages): a null
   * selection is answered first with an empty result; otherwise the map of
   * direct dependencies is built with the guarded builder if not cached yet.
   */
  function GetReferencesGuarded(cache: Option<RefMap>, project: Project, selection: Selection,
                                pathOf: ObjectId -> Path): (r: Lookup)
    requires Distinct(project.paths) && ValidSelection(selection)
    ensures selection.None? ==> r == Lookup(Answer(map[]), cache)
    ensures selection.Some? ==> r.cache == Some(cache.GetOr(ReferenceMap(project)))
    ensures selection.Some? ==> r.answer == Answer(FindDependencies(selection.value, pathOf, r.cache.value))
  {
    if selection.None? then Lookup(Answer(map[]), cache)
    else
      var loaded := EnsureMap(cache, project, false, true);
      GuardedBuild(project.paths, DepsOf(project, false));
      Lookup(Answer(FindDependencies(selection.value, pathOf, loaded.cache.value)), loaded.cache)
  }

  /**
   * With nothing cached yet, a guarded lookup answers every selected asset
   * with all its referrers, and any other selected object with an empty list.
   */
  lemma GuardedLookupFindsReferrers(project: Project, selection: seq<ObjectId>, pathOf: ObjectId -> Path, o: ObjectId)
    requires Distinct(project.paths) && Distinct(selection)
    requires o in selection
    ensures var r := GetReferencesGuarded(None, project, Some(selection), pathOf);
            && r.answer.Answer?
            && o in r.answer.results
            && r.answer.results[o] == (if pathOf(o) in project.paths
                                       then RefsOf(project.paths, DepsOf(project, false), pathOf(o))
                                       else [])
  {
    GuardedBuild(project.paths, DepsOf(project, false));
  }

  /** Once a map is cached, every later call answers from it: the map is built at most once per service. */
  lemma CachedMapIsKept(cache: RefMap, project: Project, selection: Selection, pathOf: ObjectId -> Path)
    requires Distinct(project.paths) && ValidSelection(selection)
    ensures GetReferencesGuarded(Some(cache), project, selection, pathOf).cache == Some(cache)
    ensures GetReferencesSelectedWindow(Some(cache), project, selection, pathOf).cache == Some(cache)
    ensures GetReferencesSearchService(Some(cache), project, selection, pathOf).cache == Some(cache)
  {
  }

  /**
   * `SelectedAssetsAnalysisHelper.GetReferences` of the `DependenciesHunter/`
   * selected-assets window: the null check comes first; the map is built
   * with the unguarded builder, whose exception escapes to the caller.
   */
  function GetReferencesSelectedWindow(cache: Option<RefMap>, project: Project, selection: Selection,
                                       pathOf: ObjectId -> Path): (r: Lookup)
    requires Distinct(project.paths) && ValidSelection(selection)
    ensures selection.None? ==> r == Lookup(Answer(map[]), cache)
    ensures selection.Some? ==> r.cache.Some? && (cache.Some? ==> r.cache == cache)
    ensures selection.Some? && cache.None? ==> r.cache == Some(Build(project.paths, DepsOf(project, false), false).Map())
    ensures selection.Some? && r.answer.Answer? ==>
      r.answer == Answer(FindDependencies(selection.value, pathOf, r.cache.value))
    ensures r.answer.Failure? <==>
      selection.Some? && cache.None? && Build(project.paths, DepsOf(project, false), false).Thrown?
  {
    if selection.None? then Lookup(Answer(map[]), cache)
    else
      var loaded := EnsureMap(cache, project, false, false);
      if loaded.answer.Failure? then loaded
      else Lookup(Answer(FindDependencies(selection.value, pathOf, loaded.cache.value)), loaded.cache)
  }

  /**
   * `ReferencesSearchService.GetReferences`: the map is built (unguarded)
   * before the null check, so a null selection still fills the cache.
   */
  function GetReferencesSearchService(cache: Option<RefMap>, project: Project, selection: Selection,
                                      pathOf: ObjectId -> Path): (r: Lookup)
    requires Distinct(project.paths) && ValidSelection(selection)
    ensures r.cache.Some? && (cache.Some? ==> r.cache == cache)
    ensures cache.None? ==> r.cache == Some(Build(project.paths, DepsOf(project, false), false).Map())
    ensures r.answer.Failure? <==> cache.None? && Build(project.paths, DepsOf(project, false), false).Thrown?
    ensures selection.None? && r.answer.Answer? ==> r.answer == Answer(map[])
    ensures selection.Some? && r.answer.Answer? ==>
      r.answer == Answer(FindDependencies(selection.value, pathOf, r.cache.value))
  {
    var loaded := EnsureMap(cache, project, false, false);
    if loaded.answer.Failure? then loaded
    else if selection.None? then Lookup(Answer(map[]), loaded.cache)
    else Lookup(Answer(FindDependencies(selection.value, pathOf, loaded.cache.value)), loaded.cache)
  }

  /**
   * With nothing cached yet and every dependency a known asset, the unguarded
   * lookups do not throw and answer every selected asset with all its
   * referrers, and any other selected object with an empty list.
   */
  lemma UnguardedLookupFindsReferrers(project: Project, selection: seq<ObjectId>, pathOf: ObjectId -> Path, o: ObjectId)
    requires Distinct(project.paths) && Distinct(selection)
    requires AllKnown(project.paths, DepsOf(project, false), set p | p in project.paths)
    requires o in selection
    ensures var expected := if pathOf(o) in project.paths
                            then RefsOf(project.paths, DepsOf(project, false), pathOf(o))
                            else [];
            var w := GetReferencesSelectedWindow(None, project, Some(selection), pathOf);
            var s := GetReferencesSearchService(None, project, Some(selection), pathOf);
            && w.answer.Answer? && o in w.answer.results && w.answer.results[o] == expected
            && s.answer.Answer? && o in s.answer.results && s.answer.results[o] == expected
  {
    UnguardedBuild(project.paths, DepsOf(project, false));
  }

  /** The search service caches the map even for a null selection; the helpers do not. */
  lemma NullSelectionStillBuilds(project: Project, pathOf: ObjectId -> Path)
    requires Distinct(project.paths)
    ensures GetReferencesSearchService(None, project, None, pathOf).cache.Some?
    ensures GetReferencesSelectedWindow(None, project, None, pathOf).cache.None?
    ensures GetReferencesGuarded(None, project, None, pathOf).cache.None?
  {
  }

  /**
   * After a failed first build the partial map stays cached, so the next
   * lookup does not throw: it answers from the incomplete map.
   */
  lemma PartialMapAnswersLater(project: Project, first: Selection, second: seq<ObjectId>, pathOf: ObjectId -> Path)
    requires Distinct(project.paths) && ValidSelection(first) && Distinct(second)
    requires GetReferencesSearchService(None, project, first, pathOf).answer.Failure?
    ensures var cache := GetReferencesSearchService(None, project, first, pathOf).cache;
            var later := GetReferencesSearchService(cache, project, Some(second), pathOf);
            && later.answer.Answer?
            && later.cache == Some(Build(project.paths, DepsOf(project, false), false).partial)
  {
  }

  // ---------------------------------------------------------------------
  // The `DependenciesHunter` class
  // ---------------------------------------------------------------------

  /** The direct and the recursive ("all") reverse maps, and the last results computed from each. */
  datatype Hunter = Hunter(
    direct: Option<RefMap>,
    all: Option<RefMap>,
    directResults: Option<Results>,
    allResults: Option<Results>)

  const NewHunter: Hunter := Hunter(None, None, None, None)

  /** A hunter operation's new state, and the dependency that made `CreateMap` throw, if any. */
  datatype Step = Step(hunter: Hunter, missing: Option<Path>)

  /** The direct map is requested, still null, and its unguarded build throws. */
  predicate DirectBuildThrows(h: Hunter, project: Project, directDependencies: bool)
    requires Distinct(project.paths)
  {
    directDependencies && h.direct.None? && Build(project.paths, DepsOf(project, false), false).Thrown?
  }

  /** The "all" map is requested, still null, and its unguarded build throws. */
  predicate AllBuildThrows(h: Hunter, project: Project, allDependencies: bool)
    requires Distinct(project.paths)
  {
    allDependencies && h.all.None? && Build(project.paths, DepsOf(project, true), false).Thrown?
  }

  /**
   * `CreateMapIfNeeded`: builds each requested map that is still null, the
   * direct one (non-recursive dependencies) first; a throw leaves the partial
   * map in its field and skips the second build.
   */
  function CreateMapIfNeeded(h: Hunter, project: Project, directDependencies: bool, allDependencies: bool): (r: Step)
    requires Distinct(project.paths)
    ensures r.hunter.directResults == h.directResults && r.hunter.allResults == h.allResults
    ensures h.direct.Some? || !directDependencies ==> r.hunter.direct == h.direct
    ensures h.all.Some? || !allDependencies ==> r.hunter.all == h.all
    ensures directDependencies ==> r.hunter.direct.Some?
    ensures r.missing.None? && allDependencies ==> r.hunter.all.Some?
    ensures directDependencies && h.direct.None? ==>
      r.hunter.direct == Some(Build(project.paths, DepsOf(project, false), false).Map())
    ensures r.missing.None? && allDependencies && h.all.None? ==>
      r.hunter.all == Some(Build(project.paths, DepsOf(project, true), false).Map())
    ensures r.missing.Some? <==>
      DirectBuildThrows(h, project, directDependencies) || AllBuildThrows(h, project, allDependencies)
    ensures DirectBuildThrows(h, project, directDependencies) ==>
      r.hunter.all == h.all && r.missing == Some(Build(project.paths, DepsOf(project, false), false).missing)
    ensures !DirectBuildThrows(h, project, directDependencies) && AllBuildThrows(h, project, allDependencies) ==>
      r.hunter.all == Some(Build(project.paths, DepsOf(project, true), false).partial)
      && r.missing == Some(Build(project.paths, DepsOf(project, true), false).missing)
  {
    var d := if directDependencies then EnsureMap(h.direct, project, false, false) else Lookup(Answer(map[]), h.direct);
    var h1 := h.(direct := d.cache);
    if d.answer.Failure? then Step(h1, Some(d.answer.missing))
    else
      var a := if allDependencies then EnsureMap(h.all, project, true, false) else Lookup(Answer(map[]), h.all);
      var h2 := h1.(all := a.cache);
      if a.answer.Failure? then Step(h2, Some(a.answer.missing)) else Step(h2, None)
  }

  /**
   * `GetDependenciesRevert`: creates the requested maps, then, unless the
   * selection is null, recomputes the requested results, each from its own map.
   */
  function GetDependenciesRevert(h: Hunter, project: Project, selection: Selection, pathOf: ObjectId -> Path,
                                 directDependencies: bool, allDependencies: bool): (r: Step)
    requires Distinct(project.paths) && ValidSelection(selection)
    ensures r.hunter.direct == CreateMapIfNeeded(h, project, directDependencies, allDependencies).hunter.direct
    ensures r.hunter.all == CreateMapIfNeeded(h, project, directDependencies, allDependencies).hunter.all
    ensures r.missing == CreateMapIfNeeded(h, project, directDependencies, allDependencies).missing
    ensures r.missing.Some? || selection.None? ==>
      r.hunter.directResults == h.directResults && r.hunter.allResults == h.allResults
    ensures r.missing.None? && selection.Some? && directDependencies ==>
      r.hunter.direct.Some? && r.hunter.directResults == Some(FindDependencies(selection.value, pathOf, r.hunter.direct.value))
    ensures r.missing.None? && selection.Some? && allDependencies ==>
      r.hunter.all.Some? && r.hunter.allResults == Some(FindDependencies(selection.value, pathOf, r.hunter.all.value))
    ensures !directDependencies ==> r.hunter.directResults == h.directResults
    ensures !allDependencies ==> r.hunter.allResults == h.allResults
  {
    var created := CreateMapIfNeeded(h, project, directDependencies, allDependencies);
    var h1 := created.hunter;
    if created.missing.Some? || selection.None? then created
    else
      var h2 := if directDependencies then h1.(directResults := Some(FindDependencies(selection.value, pathOf, h1.direct.value))) else h1;
      var h3 := if allDependencies then h2.(allResults := Some(FindDependencies(selection.value, pathOf, h2.all.value))) else h2;
      Step(h3, None)
  }

  /**
   * On a project whose dependencies all name known assets, a new hunter's
   * maps list exactly the referrers: the direct map by direct dependencies,
   * the "all" map by the transitive ones.
   */
  lemma HunterMapsAreReverseIndexes(project: Project, d: Path)
    requires Distinct(project.paths)
    requires AllKnown(project.paths, DepsOf(project, false), set p | p in project.paths)
    requires AllKnown(project.paths, DepsOf(project, true), set p | p in project.paths)
    requires d in project.paths
    ensures var r := CreateMapIfNeeded(NewHunter, project, true, true);
            && r.missing.None?
            && r.hunter.direct.Some? && r.hunter.direct.value[d] == RefsOf(project.paths, DepsOf(project, false), d)
            && r.hunter.all.Some? && r.hunter.all.value[d] == RefsOf(project.paths, DepsOf(project, true), d)
  {
    UnguardedBuild(project.paths, DepsOf(project, false));
    UnguardedBuild(project.paths, DepsOf(project, true));
  }
}
