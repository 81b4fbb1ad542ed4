# Dependencies Hunter: the reverse-dependency index and the unreferenced-asset pipeline

Dependencies Hunter is a Unity editor extension. It finds which assets of a project reference a given asset, and which assets nothing references. Every window builds the same thing: a reverse-dependency map from each asset path to the assets that list it as a dependency. The windows then query that map.
- The "selected assets" services answer with the referrers of each selected object.
- The all-project windows list the assets without referrers. They drop the asset types that are never "unused": scripts, folders, scenes registered in the build settings, and textures used as player icons. They also drop paths matched by user-editable regular expressions, which persist in `EditorPrefs`.
- The analysis window of the `Packages/` and `Editor/` variants does more:
  - it gives every asset an effective reference count (a sprite referenced only by its atlas counts as unreferenced, with a warning);
  - it counts the rows per type;
  - it sorts the rows, filters them, pages them fifty at a time, and deletes the unreferenced ones.

The Dafny modules follow that structure:

| module | file | what it holds |
|---|---|---|
| `Common` | common.dfy | `Option`, `Distinct`, `Count`, `Filter` and their lemmas |
| `Strings` | strings.dfy | substring search, `Replace(x, "")`, ordinal comparison, integer to decimal text |
| `Assets` | assets.dfy | paths, main asset types, the injected `Project`, the `AssetData` row |
| `ReverseMap` | reverse_map.dfy | the guarded and the unguarded map builders, and the reference definition `RefsOf` they are proved against |
| `Classify` | classify.dfy | the type classifiers with the lazily loaded icon list, and the ignore-pattern test |
| `Patterns` | patterns.dfy | loading, editing and saving the ignore patterns in `EditorPrefs` |
| `Sorting` | sorting.dfy | the three sort buttons and the `SortType` code |
| `Query` | query.dfy | the output filter chain, the pages, the delete button |
| `Analysis` | analysis.dfy | "Run Analysis": effective counts, listing, counts per type, the final sort |
| `Lookup` | lookup.dfy | the find-references services and the `DependenciesHunter` class |
| `Windows` | windows.dfy | the toggle-and-remove windows, and the `Editor/` all-project window with its pages |

The Unity editor is not part of the model. What the code asks of it becomes values:
- the asset path list, the dependency query, the main type of each path, the build scenes and the player icons are fields of `Assets.Project`;
- regex matching is a parameter `matches`;
- `EditorPrefs` is a pair of maps;
- `AssetDatabase.DeleteAsset` is a function from path to success;
- the project after a removal is a second `Project`.

A `Dictionary` is assumed to enumerate in insertion order, so the maps are walked in asset-path order. A build that throws `KeyNotFoundException` is the outcome `Thrown(missing, partial)`. It carries the partial map that the builder's `out` field keeps.

## Model

| member | source | states |
|---|---|---|
| ReverseMap.EmptyMap | DependenciesHunter/DependenciesMapUtilities.cs:12 | the initial dictionary has one empty list per asset path and no other key |
| ReverseMap.Build | Packages/DependenciesHunter/Editor/DependenciesHunter.cs:1148-1171 | whatever the outcome, the map's keys are exactly the asset paths |
| ReverseMap.GuardedBuild | Packages/DependenciesHunter/Editor/DependenciesHunter.cs:1150-1170 | the guarded builder never throws, and the list of every path is its referrers in scan order (`RefsOf`), each listed once per dependency entry |
| ReverseMap.UnguardedBuild | DependenciesHunter/DependenciesMapUtilities.cs:12-27 | the unguarded builder completes iff every reported dependency is the asset itself or a known path, and then agrees with `RefsOf`; if it throws, the missing dependency is unknown and was reported by some asset; the partial map left behind holds only genuine referrers |
| ReverseMap.AddReferrerAppends | Editor/DependenciesMapUtilities.cs:26-32 | one asset's pass appends the asset to the list of each known dependency other than itself, once per occurrence, and leaves every other list alone |
| ReverseMap.AddReferrerThrows | DependenciesHunter/ReferencesSearchUtilities.cs:43-49 | one asset's unguarded pass throws iff one of its dependencies is neither itself nor a key |
| ReverseMap.FillFromAppends | DependenciesHunter/DependenciesHunter.cs:63-76 | the outer loop appends to each list exactly the referrers of that key among the scanned assets |
| ReverseMap.FillFromSound | DependenciesHunter/DependenciesHunter.cs:63-76 | every entry of every list, of a complete or a partial map, is a scanned asset other than the key that depends on the key |
| ReverseMap.RefsOfMembership | Editor/DependenciesMapUtilities.cs:28-31 | `a` is a referrer of `d` iff `a` is an asset path, differs from `d` and reports `d` as a dependency |
| ReverseMap.NoSelfReference | Editor/DependenciesMapUtilities.cs:28 | no asset is listed as its own referrer |
| ReverseMap.Unreferenced | Editor/DependenciesMapUtilities.cs:26-31 | an asset has an empty list iff no other asset depends on it |
| ReverseMap.GuardIrrelevantWhenAllKnown | DependenciesHunter/DependenciesMapUtilities.cs:20-26 | when every dependency is known, the guarded and the unguarded builders give the same map |
| ReverseMap.ListedIff | Packages/DependenciesHunter/Editor/DependenciesHunter.cs:1163-1169 | in a completed map, `a` is listed under the known path `d` iff `a` depends on `d` and is not `d` |
| ReverseMap.ReferenceMap | Editor/DependenciesMapUtilities.cs:11-34 | the map of direct dependencies that the `Editor/` and `Packages/` code builds has the asset paths as keys |
| Classify.UsedAsIcon | Packages/DependenciesHunter/Editor/DependenciesHunter.cs:1058-1066 | the icon test answers from the cached list, and loads the live icon set only when nothing is cached yet |
| Classify.TypeTests | Packages/DependenciesHunter/Editor/ProjectAssetsAnalysisHelper.cs:14-38 | scripts and folders fail, a scene fails iff it is a build scene, a texture fails iff it is a player icon; only a texture test touches the icon cache |
| Classify.IsValidAssetType | Packages/DependenciesHunter/Editor/DependenciesHunter.cs:1023-1050 | a null type fails first; otherwise the type tests decide |
| Classify.IsValidAssetTypeNoNullCheck | Packages/DependenciesHunter/Editor/ProjectAssetsAnalysisHelper.cs:14-38 | the same type tests without the null check |
| Classify.IsTargetOfAnalysis | DependenciesHunter/AllProjectAssetsReferencesWindow.cs:190-220 | accepted iff the type tests pass and the path has no "/Resources/" or "/Editor/" part |
| Classify.ShouldBeChecked | DependenciesHunter/UnusedAssetsWindow.cs:58-93 | the same decision as `IsTargetOfAnalysis`, with the two folder tests made one after the other |
| Classify.NullCheckIsTheOnlyDifference | Editor/DependenciesHunter.cs:895-922 | the two classifiers differ exactly on null types, and they leave the same icon cache |
| Classify.UnknownType | Packages/DependenciesHunter/Editor/DependenciesHunter.cs:1027-1032 | a null type is accepted without the null check and rejected with it |
| Classify.ShouldBeCheckedIsTargetOfAnalysis | DependenciesHunter/UnusedAssetsWindow.cs:58-93 | the classifiers of the two `DependenciesHunter/` windows give equal verdicts and caches |
| Classify.TargetIsValidOutsideSkippedFolders | DependenciesHunter/AllProjectAssetsReferencesWindow.cs:214-217 | `IsTargetOfAnalysis` is the no-null-check type test narrowed by the folder test |
| Classify.ValidForOutputIff | Packages/DependenciesHunter/Editor/DependenciesHunter.cs:1052-1056 | a path is valid for output iff every pattern is empty or does not match it |
| Classify.EmptyPatternsIgnoreNothing | Packages/DependenciesHunter/Editor/DependenciesHunter.cs:1055 | empty patterns never ignore a path |
| Classify.ValidForOutputAppend | Packages/DependenciesHunter/Editor/DependenciesHunter.cs:1054-1055 | the patterns combine by conjunction, so adding a pattern can only hide more paths |
| Classify.IsValidForOutputLoop | Packages/DependenciesHunter/Editor/ProjectAssetsAnalysisHelper.cs:41-52 | the loop with its early return rejects iff some non-empty pattern matches |
| Patterns.EntryKeyInjective | Editor/AllProjectAssetsReferencesWindow.cs:319 | distinct indices use distinct keys, and none of them is the count key |
| Patterns.LoadPatterns | Packages/DependenciesHunter/Editor/DependenciesHunter.cs:716-730 | a missing count (-1) gives the thirteen defaults; any other count `c` gives the stored entries `0..c-1`, none when `c` is negative |
| Patterns.EnsurePatternsLoaded | Editor/AllProjectAssetsReferencesWindow.cs:289-311 | a list already in memory is kept; otherwise it is loaded |
| Patterns.SavePatterns | Packages/DependenciesHunter/Editor/DependenciesHunter.cs:733-741 | stores the count and the entries `0..n-1`; every other integer key and every higher entry key are left as they were |
| Patterns.SaveLoadRoundTrip | Editor/AllProjectAssetsReferencesWindow.cs:289-321 | loading after saving gives back the saved list |
| Patterns.EditCount | Packages/DependenciesHunter/Editor/DependenciesHunter.cs:667-685 | the new length is the typed count clamped at 0; the kept prefix is unchanged, new slots come from the store, and the list is dirty iff the count changed |
| Patterns.EditEntries | Editor/AllProjectAssetsReferencesWindow.cs:273-281 | the list becomes the typed values, and is dirty iff some entry changed |
| Patterns.PatternsGui | Packages/DependenciesHunter/Editor/DependenciesHunter.cs:645-700 | one pass of the settings GUI leaves the typed list; it saves iff the list is dirty ("Set Default" pressed, or the typed list differs from the shown one in length or in some entry), and a pass with nothing dirty leaves both the list and the store unchanged |
| Patterns.PatternsGuiKeepsStoreInSync | Editor/AllProjectAssetsReferencesWindow.cs:225-287 | if the store described the list before a pass, loading the store after the pass gives the list in memory |
| Patterns.ShrinkThenGrowRestores | Editor/AllProjectAssetsReferencesWindow.cs:260-271 | shrinking the count keeps the dropped entries in the store, so growing it back restores the original list |
| Sorting.Insert | Packages/DependenciesHunter/Editor/DependenciesHunter.cs:764-771 | inserting into a sorted list keeps it sorted and adds exactly that element |
| Sorting.Sort | Packages/DependenciesHunter/Editor/DependenciesHunter.cs:748-785 | `List.Sort` with a button's comparison gives a permutation ordered by that comparison |
| Sorting.Press | Packages/DependenciesHunter/Editor/DependenciesHunter.cs:743-787 | pressed on the ascending code of its key, a button sorts descending and sets the descending code; otherwise it sorts ascending and sets the ascending code; the rows stay a permutation |
| Sorting.ComparisonTotal | Packages/DependenciesHunter/Editor/DependenciesHunter.cs:748-785 | of any two assets, one may come first under each comparison |
| Sorting.ComparisonTransitive | Packages/DependenciesHunter/Editor/DependenciesHunter.cs:748-785 | every comparison is transitive |
| Sorting.CodeInjective | Packages/DependenciesHunter/Editor/DependenciesHunter.cs:104-111 | the six sort codes 0..5 are distinct, one per key and direction |
| Sorting.PressTwiceReverses | Packages/DependenciesHunter/Editor/DependenciesHunter.cs:423-444 | pressing a button twice shows both directions, one after the other |
| Sorting.SizeButtonFromAscendingSortsDescending | Packages/DependenciesHunter/Editor/DependenciesHunter.cs:777-781 | from code 4 the size button orders by non-increasing size |
| Sorting.PathOrderUnique | Packages/DependenciesHunter/Editor/DependenciesHunter.cs:770-771 | two path-ascending permutations of rows with distinct paths are equal |
| Strings.CompareZeroIffEqual | Packages/DependenciesHunter/Editor/DependenciesHunter.cs:765 | ordinal comparison is 0 iff the strings are equal |
| Strings.CompareTransitive | Packages/DependenciesHunter/Editor/DependenciesHunter.cs:771 | ordinal comparison is transitive |
| Strings.SupplementaryBeforePrivateUse | Packages/DependenciesHunter/Editor/DependenciesHunter.cs:771 | ordinal comparison orders UTF-16 code units, not scalar values: U+1F600, stored as the surrogate pair D83D DE00, sorts before U+E000 |
| Strings.RemoveAllLeading | Packages/DependenciesHunter/Editor/DependenciesHunter.cs:1184-1185 | `Replace(x, "")` on `x + rest` gives `rest` when `rest` has no further `x` |
| Assets.EngineTypeName | Packages/DependenciesHunter/Editor/DependenciesHunter.cs:1183-1185 | a `UnityEngine.N` type is listed under `N` |
| Assets.EditorTypeName | Packages/DependenciesHunter/Editor/DependenciesHunter.cs:1183-1185 | a `UnityEditor.N` type is listed under `N` |
| Assets.KnownTypeName | Packages/DependenciesHunter/Editor/DependenciesHunter.cs:1181-1185 | the five named types are listed as "MonoScript", "DefaultAsset", "SceneAsset", "Texture2D" and "U2D.SpriteAtlas" |
| Assets.CreateAssetData | Packages/DependenciesHunter/Editor/DependenciesHunter.cs:1176-1222 | a row keeps the path, count and warning it is given; it is a valid type iff the main type is not null; a null type is named "Unknown Type", any other its full name with both Unity namespaces removed; size and addressable flag come from the project |
| Assets.ShortPath | Packages/DependenciesHunter/Editor/DependenciesHunter.cs:1214 | the short path is never longer than the path, equals it when it holds no "Assets/", and is at least one "Assets/" shorter otherwise |
| Assets.ShortPathOfProjectAsset | Packages/DependenciesHunter/Editor/DependenciesHunter.cs:1214 | a project path "Assets/rest" is shown as "rest" when "rest" holds no further "Assets/" |
| Query.FilterChainIsConjunction | Packages/DependenciesHunter/Editor/DependenciesHunter.cs:296-321 | the five `Where` stages keep exactly the rows that pass every active filter, in result order; the last stage is active only for a run that listed all assets |
| Query.PagesCountIsCeiling | Packages/DependenciesHunter/Editor/DependenciesHunter.cs:359-360 | the page count is the least number of fifty-row pages holding every row; it is 0 iff there are no rows |
| Query.ClampPage | Packages/DependenciesHunter/Editor/DependenciesHunter.cs:375-383 | the page is "All" afterwards iff it was "All" before or there are no pages; otherwise it is the smaller of the page and the last page, so a page past the last becomes the last and any other page, a negative one included, is kept |
| Query.PageWindow | Packages/DependenciesHunter/Editor/DependenciesHunter.cs:522-531 | a row is drawn iff its index lies in `[PageStart, PageEnd)` |
| Query.ShownRows | Packages/DependenciesHunter/Editor/DependenciesHunter.cs:522-531 | the loop with its `continue` draws the contiguous slice of the page |
| Query.DeleteCandidates | Packages/DependenciesHunter/Editor/DependenciesHunter.cs:463-464 | the assets to delete are exactly the filtered rows that are neither addressable nor referenced |
| Query.DeleteButtonCount | Packages/DependenciesHunter/Editor/DependenciesHunter.cs:450-461 | the button appears iff some filtered row is deletable, and its label counts the candidates |
| Query.DeleteUnreferencedAssets | Packages/DependenciesHunter/Editor/DependenciesHunter.cs:42-60 | the returned count is the number of successful deletions, and the database is refreshed iff it is positive |
| Analysis.EffectiveReferences | Packages/DependenciesHunter/Editor/DependenciesHunter.cs:163-179 | the warning is set iff the asset is a texture whose one referrer is a sprite atlas, and names that atlas; the count is 0 iff there are no referrers or that case holds, and is the number of referrers otherwise |
| Analysis.ScanEntries | Packages/DependenciesHunter/Editor/DependenciesHunter.cs:156-199 | the walk lists, in key order, the rows of the entries that are considered, valid and not ignored; it logs the valid ignored ones; an empty icon cache is filled with the player icons exactly when some considered entry (every entry, or in unreferenced-only mode those with effective count 0) is a texture, and a filled one is never reloaded |
| Analysis.ListedOrIgnored | Packages/DependenciesHunter/Editor/DependenciesHunter.cs:188-198 | a valid entry is listed or logged, never both |
| Analysis.CountByType | Packages/DependenciesHunter/Editor/DependenciesHunter.cs:201-206 | the loop gives each listed type name the number of rows of that type, and no other key |
| Analysis.TypeButtonsCoverRows | Packages/DependenciesHunter/Editor/DependenciesHunter.cs:491-507 | the type buttons show every listed type once, and their counts add up to the number of rows |
| Analysis.RunAnalysis | Packages/DependenciesHunter/Editor/DependenciesHunter.cs:131-250 | a run's rows are a permutation of the listed rows sorted by ascending path; the per-type counts and the button order are taken before the sort; the output settings are fresh, with page 0 and sort code 2; the service's icon cache ends as the walk leaves it: filled exactly when it was empty and some considered asset is a texture |
| Analysis.RunListsSelected | Editor/DependenciesHunter.cs:105-228 | a run lists an asset path iff its effective count fits the mode, its type is valid and no pattern ignores it; the count is taken over its referrers among all asset paths |
| Analysis.UnreferencedOnlyListsUnreferenced | Packages/DependenciesHunter/Editor/DependenciesHunter.cs:181-182 | in unreferenced-only mode every row has count 0: nothing depends on it, or it carries the atlas warning |
| Analysis.RunOrderIsDetermined | Packages/DependenciesHunter/Editor/DependenciesHunter.cs:243 | although `List.Sort` is unstable, a run's row order is the only path-ascending order of its rows |
| Lookup.FindDependencies | DependenciesHunter/ReferencesSearchUtilities.cs:10-30 | one entry per selected object: its map list, or an empty list when its path is not a key |
| Lookup.EnsureMap | DependenciesHunter/ReferencesSearchService.cs:15-19 | a cached map is kept; otherwise the build fills the cache, with the partial map when it throws |
| Lookup.GetReferencesGuarded | Editor/SelectedAssetsAnalysisHelper.cs:11-29 | a null selection is answered empty before any build; otherwise the cached or newly built direct map answers each object |
| Lookup.GuardedLookupFindsReferrers | Packages/DependenciesHunter/Editor/DependenciesHunter.cs:1103-1121 | with nothing cached, each selected asset gets all its direct referrers, and any other object an empty list |
| Lookup.CachedMapIsKept | DependenciesHunter/SelectedAssetsReferencesWindow.cs:167-171 | once a map is cached, no service builds it again |
| Lookup.GetReferencesSelectedWindow | DependenciesHunter/SelectedAssetsReferencesWindow.cs:157-178 | null check first; with nothing cached the unguarded build's map (complete or partial) is cached; it fails iff nothing was cached and the build throws; otherwise each object is answered from the cached map |
| Lookup.GetReferencesSearchService | DependenciesHunter/ReferencesSearchService.cs:11-31 | the build comes before the null check; with nothing cached the unguarded build's map (complete or partial) is cached; it fails iff nothing was cached and the build throws |
| Lookup.UnguardedLookupFindsReferrers | DependenciesHunter/ReferencesSearchService.cs:13-28 | when every dependency is a known asset and nothing is cached, both unguarded lookups succeed and give each selected asset all its direct referrers, and any other object an empty list |
| Lookup.NullSelectionStillBuilds | DependenciesHunter/ReferencesSearchService.cs:13-26 | the search service fills its cache even for a null selection; the helpers do not |
| Lookup.PartialMapAnswersLater | DependenciesHunter/ReferencesSearchService.cs:15-19 | after a failed first build, the partial map stays cached and the next call answers from it |
| Lookup.CreateMapIfNeeded | DependenciesHunter/DependenciesHunter.cs:37-52 | only the requested maps that are still null are built, the direct one first; a throw leaves the partial map in place and skips the second build: `missing` is set iff a requested null map's build threw, and a throw of the direct build leaves the "all" map as it was |
| Lookup.GetDependenciesRevert | DependenciesHunter/DependenciesHunter.cs:19-35 | creates the maps, then, for a non-null selection, recomputes each requested result from its own map; others are unchanged; it fails exactly when the map creation does |
| Lookup.HunterMapsAreReverseIndexes | DependenciesHunter/DependenciesHunter.cs:54-77 | when every dependency is known, the direct and the recursive maps list exactly the direct and the transitive referrers |
| Windows.ScanTargets | DependenciesHunter/AllProjectAssetsReferencesWindow.cs:53-65 | the walk lists, in key order, the entries without referrers that the classifier accepts; since every entry is classified, an empty icon cache is filled exactly when some entry is a texture |
| Windows.Clear | DependenciesHunter/UnusedAssetsWindow.cs:154-162 | the list and the toggles are emptied; the unused-assets window also drops its icons and hunter, while the all-project window keeps its service |
| Windows.Search | DependenciesHunter/UnusedAssetsWindow.cs:31-56 | a listing has one toggle per listed asset, off in the all-project window and on in the unused-assets window; `missing` is set iff the unguarded build threw, and then the listing is empty and the icon cache is the cleared window's; otherwise the cache is the walk's, filled exactly when it was empty and some asset is a texture; the all-project window keeps its hunter |
| Windows.SearchListsUnreferencedTargets | DependenciesHunter/AllProjectAssetsReferencesWindow.cs:35-68 | when every dependency is known, an asset is listed iff no other asset depends on it and the classifier accepts it |
| Windows.SetToggles | DependenciesHunter/AllProjectAssetsReferencesWindow.cs:70-79 | every toggle takes the value, and the set of toggles is unchanged |
| Windows.ProjectChange | DependenciesHunter/AllProjectAssetsReferencesWindow.cs:172-178 | a project change clears the window unless a removal is under way |
| Windows.DeleteToggled | DependenciesHunter/UnusedAssetsWindow.cs:136-146 | exactly the toggled assets are deleted, in list order, and the window is left as it was |
| Windows.Remove | DependenciesHunter/AllProjectAssetsReferencesWindow.cs:81-96 | deletes the toggled assets, then lists again on the project the deletions left; every asset listed then is in that project |
| Windows.RemovedAssetsStayGone | DependenciesHunter/UnusedAssetsWindow.cs:134-152 | an asset gone from the project is never listed again |
| Windows.ScanEditor | Editor/AllProjectAssetsReferencesWindow.cs:75-103 | the walk lists the entries without referrers that the no-null-check type tests accept and no pattern ignores; an empty icon cache is filled exactly when some entry without referrers is a texture |
| Windows.ListAllEditor | Editor/AllProjectAssetsReferencesWindow.cs:56-106 | "Run Analysis" shows all pages, marks the window launched, and lists in path order what `ScanEditor` accepts; the icon cache ends filled exactly when it was empty and some asset without referrers is a texture |
| Windows.PressPage | Editor/AllProjectAssetsReferencesWindow.cs:152-163 | a page button exists only for a page of the current list, and selects that page; the list, the launched flag and the icon cache are untouched |
| Windows.PressAll | Editor/AllProjectAssetsReferencesWindow.cs:142-145 | the "All" button shows every row; the list, the launched flag and the icon cache are untouched |
| Windows.RowLabelAsWritten | Editor/AllProjectAssetsReferencesWindow.cs:191-194 | for a non-null type the drawn label is the row type name of `AssetData`; it has no value for a null type |
| Windows.EditorPageStaysInRange | Editor/AllProjectAssetsReferencesWindow.cs:149-186 | this window never clamps its page, and need not: after a run the page is "All", and a selected page lies within the list |
| Windows.EditorListsUntypedAsset | Editor/AllProjectAssetsReferencesWindow.cs:191-192 | a project with one unreferenced asset of null type lists it, so the next draw reaches `type.ToString()` on null |
| Windows.EditorRowLabels | Packages/DependenciesHunter/Editor/DependenciesHunter.cs:1179-1190 | the corrected row labels: one per shown row, "Unknown Type" for a null type, the as-written label otherwise |
| Windows.RowLabelsAgree | Editor/AllProjectAssetsReferencesWindow.cs:191-194 | wherever the rows can be drawn as written, the corrected labels are the same |

## Left out

- IMGUI layout, colours, scroll positions, progress bars, dialogs, tooltips and `Debug.Log` text: they are display only.
- The regular-expression engine: pattern matching is the parameter `matches`.
- The "Save to Clipboard" buttons, `OutputDescription`, `GetReadableSize` and the 13-character type label of the result rows: text formatting only.
- The `HUNT_ADDRESSABLES` build flag: addressability is the input `isAddressable`, and the "Show Addressables" toggle is kept as a setting.
- File sizes: `FileInfo.Length` and its exception handling are the input `sizeOf`.
- `EditorUtility.UnloadUnusedAssetsImmediate`, `OnDestroy` and `Show`: no effect on the data.
- The shortening of type names after the last dot on the type buttons: display only.
- `Sorting.Sort`: the tie order of the unstable `List.Sort` is not modelled. Only ordering and permutation are claimed, and for the path sort `Sorting.PathOrderUnique` shows the order is unique anyway.
- `Analysis.RunAnalysis`: the per-type counts are stated over the rows before the final sort. That the counts do not depend on the order is not proved.
- `Query.DeleteUnreferencedAssets`: `deleteAsset` is a pure function of the path. The real call changes the database, but each path is deleted at most once because paths are distinct.
- The Packages window keeps its result after a deletion; the deleted rows stay listed until the next run. The model follows the code here.
- The asset database is a fixed `Project` during one operation. A change between calls is a new `Project` value.
- `Dictionary` enumeration order is assumed to be insertion order, which is asset-path order. .NET does not promise this.
- Integers are unbounded. A 32-bit overflow would need more than two billion assets.
- The selection windows' GUI (`Start`, foldouts, cached launch) and the context-only windows `DependenciesHunterWindow.cs` and `ReferencesWindow.cs`. They only display what `Lookup` returns.
- Asset paths are assumed distinct (`Distinct(project.paths)`, required by `ReverseMap.Build`, `ReverseMap.ReferenceMap` and the runs): `AssetDatabase.GetAllAssetPaths` never repeats a path, so the duplicate-key throw of `ToDictionary` is not modelled.
- A selection that repeats an object is excluded by a precondition. `Dictionary.Add` would throw, and the editor's selection never repeats one.

## Findings

| source | as written | input that shows it | evidently intended | confidence | as-written member | corrected member |
|---|---|---|---|---|---|---|
| Editor/AllProjectAssetsReferencesWindow.cs:191-194 | the row label calls `type.ToString()`, but the window lists assets through `ProjectAssetsAnalysisHelper.IsValidAssetType` (Packages/DependenciesHunter/Editor/ProjectAssetsAnalysisHelper.cs:14-38), which has no null check, so a listed asset may have a null type | one asset path with a null main type, no dependencies, and no ignore pattern matching it | draw a null type as "Unknown Type", as `AssetData.Create` does, or reject null types as the other classifiers do | medium, not executed: the default patterns "ProjectSettings/" and "Packages/" hide many paths with a null type | Windows.EditorListsUntypedAsset | Windows.EditorRowLabels |
