/**
 * The query layer over an analysis result: the output filters, the pages of
 * fifty rows, and the deletion of the unreferenced assets left after
 * filtering.
 */
module Query {
  import opened Common
  import opened Strings
  import opened Assets

  /** `OutputSettings`: what the result table shows. A null string is modelled as "". */
  datatype OutputSettings = OutputSettings(
    pageToShow: Option<int>,
    pathFilter: string,
    typeFilter: string,
    showAddressables: bool,
    showUnreferencedOnly: bool,
    showWarningsOnly: bool,
    sortType: int)

  /** `new OutputSettings()`: no page, no filters, sort code 0. */
  const FreshOutputSettings: OutputSettings := OutputSettings(None, "", "", false, false, false, 0)

  const PageSize: int := 50

  // ---------------------------------------------------------------------
  // Filters
  // ---------------------------------------------------------------------

  /** One `Where` stage of the chain, skipped entirely when its setting is off. */
  function Stage(s: seq<AssetData>, active: bool, keep: AssetData -> bool): seq<AssetData> {
    if active then Filter(s, keep) else s
  }

  /**
   * The filter chain of `OnGUI`, stage by stage: path substring, addressables,
   * exact type name, warnings only, and unreferenced only. The last stage is
   * active only when the analysis listed every asset (`unreferencedOnlyRun`
   * false); the Packages window reads that flag from the result, the Editor
   * window from the current analysis settings.
   */
  function FilterAssets(assets: seq<AssetData>, out: OutputSettings, unreferencedOnlyRun: bool): seq<AssetData> {
    var byPath := Stage(assets, out.pathFilter != "", (a: AssetData) => Contains(a.path, out.pathFilter));
    var byAddressable := Stage(byPath, !out.showAddressables, (a: AssetData) => !a.isAddressable);
    var byType := Stage(byAddressable, out.typeFilter != "", (a: AssetData) => a.typeName == out.typeFilter);
    var byWarning := Stage(byType, out.showWarningsOnly, (a: AssetData) => a.warning != "");
    Stage(byWarning, !unreferencedOnlyRun && out.showUnreferencedOnly, (a: AssetData) => a.referencesCount == 0)
  }

  /** The conjunction of the five filters, for one asset. */
  predicate Passes(out: OutputSettings, unreferencedOnlyRun: bool, a: AssetData) {
    (out.pathFilter == "" || Contains(a.path, out.pathFilter))
    && (out.showAddressables || !a.isAddressable)
    && (out.typeFilter == "" || a.typeName == out.typeFilter)
    && (!out.showWarningsOnly || a.warning != "")
    && (unreferencedOnlyRun || !out.showUnreferencedOnly || a.referencesCount == 0)
  }

  /** The filters up to stage `n`, in chain order. */
  predicate PassesUpTo(n: nat, out: OutputSettings, unreferencedOnlyRun: bool, a: AssetData) {
    (n >= 1 ==> out.pathFilter == "" || Contains(a.path, out.pathFilter))
    && (n >= 2 ==> out.showAddressables || !a.isAddressable)
    && (n >= 3 ==> out.typeFilter == "" || a.typeName == out.typeFilter)
    && (n >= 4 ==> !out.showWarningsOnly || a.warning != "")
    && (n >= 5 ==> unreferencedOnlyRun || !out.showUnreferencedOnly || a.referencesCount == 0)
  }

  /** A stage applied to the survivors of the earlier ones is one filter by the longer conjunction. */
  lemma StageNarrow(s: seq<AssetData>, active: bool, keep: AssetData -> bool, p: AssetData -> bool, r: AssetData -> bool)
    requires forall x :: r(x) <==> p(x) && (!active || keep(x))
    ensures Stage(Filter(s, p), active, keep) == Filter(s, r)
  {
    if active {
      FilterNarrow(s, p, keep, r);
    } else {
      FilterNarrow(s, p, x => true, r);
      FilterAll(Filter(s, p), x => true);
    }
  }

  /** The path stage keeps the assets passing the first filter. */
  lemma PathStage(assets: seq<AssetData>, out: OutputSettings, run: bool)
    ensures Stage(assets, out.pathFilter != "", (a: AssetData) => Contains(a.path, out.pathFilter))
         == Filter(assets, a => PassesUpTo(1, out, run, a))
  {
    FilterAll(assets, a => PassesUpTo(0, out, run, a));
    StageNarrow(assets, out.pathFilter != "", (a: AssetData) => Contains(a.path, out.pathFilter),
                a => PassesUpTo(0, out, run, a), a => PassesUpTo(1, out, run, a));
  }

  /** The addressables stage narrows the survivors of the first filter to those of the first two. */
  lemma AddressableStage(assets: seq<AssetData>, out: OutputSettings, run: bool)
    ensures Stage(Filter(assets, a => PassesUpTo(1, out, run, a)), !out.showAddressables, (a: AssetData) => !a.isAddressable)
         == Filter(assets, a => PassesUpTo(2, out, run, a))
  {
    StageNarrow(assets, !out.showAddressables, (a: AssetData) => !a.isAddressable,
                a => PassesUpTo(1, out, run, a), a => PassesUpTo(2, out, run, a));
  }

  /** The type stage narrows the survivors of the first two filters to those of the first three. */
  lemma TypeStage(assets: seq<AssetData>, out: OutputSettings, run: bool)
    ensures Stage(Filter(assets, a => PassesUpTo(2, out, run, a)), out.typeFilter != "", (a: AssetData) => a.typeName == out.typeFilter)
         == Filter(assets, a => PassesUpTo(3, out, run, a))
  {
    StageNarrow(assets, out.typeFilter != "", (a: AssetData) => a.typeName == out.typeFilter,
                a => PassesUpTo(2, out, run, a), a => PassesUpTo(3, out, run, a));
  }

  /** The warnings stage narrows the survivors of the first three filters to those of the first four. */
  lemma WarningStage(assets: seq<AssetData>, out: OutputSettings, run: bool)
    ensures Stage(Filter(assets, a => PassesUpTo(3, out, run, a)), out.showWarningsOnly, (a: AssetData) => a.warning != "")
         == Filter(assets, a => PassesUpTo(4, out, run, a))
  {
    StageNarrow(assets, out.showWarningsOnly, (a: AssetData) => a.warning != "",
                a => PassesUpTo(3, out, run, a), a => PassesUpTo(4, out, run, a));
  }

  /** The unreferenced stage narrows the survivors of the first four filters to those of all five. */
  lemma UnreferencedStage(assets: seq<AssetData>, out: OutputSettings, run: bool)
    ensures Stage(Filter(assets, a => PassesUpTo(4, out, run, a)), !run && out.showUnreferencedOnly, (a: AssetData) => a.referencesCount == 0)
         == Filter(assets, a => Passes(out, run, a))
  {
    StageNarrow(assets, !run && out.showUnreferencedOnly, (a: AssetData) => a.referencesCount == 0,
                a => PassesUpTo(4, out, run, a), a => Passes(out, run, a));
  }

  /**
   * The chain keeps exactly the assets that pass every filter, in their
   * order in the result: one `Where` with the conjunction.
   */
  lemma FilterChainIsConjunction(assets: seq<AssetData>, out: OutputSettings, unreferencedOnlyRun: bool)
    ensures FilterAssets(assets, out, unreferencedOnlyRun) == Filter(assets, a => Passes(out, unreferencedOnlyRun, a))
  {
    var run := unreferencedOnlyRun;
    PathStage(assets, out, run);
    AddressableStage(assets, out, run);
    TypeStage(assets, out, run);
    WarningStage(assets, out, run);
    UnreferencedStage(assets, out, run);
  }

  // ---------------------------------------------------------------------
  // Pages
  // ---------------------------------------------------------------------

  /** `totalCount / PageSize + (totalCount % PageSize > 0 ? 1 : 0)`. */
  function PagesCount(total: nat): nat {
    total / PageSize + (if total % PageSize > 0 then 1 else 0)
  }

  /** The page count is the least number of fifty-row pages that hold every row. */
  lemma PagesCountIsCeiling(total: nat)
    ensures PagesCount(total) * PageSize >= total
    ensures total > 0 ==> (PagesCount(total) - 1) * PageSize < total
    ensures PagesCount(total) == 0 <==> total == 0
  {
  }

  /**
   * The two corrections after the page buttons: a page past the last one
   * becomes the last one, and with no pages at all the table shows "All".
   */
  function ClampPage(page: Option<int>, pagesCount: nat): (r: Option<int>)
    ensures page.None? ==> r.None?
    ensures r.None? <==> page.None? || pagesCount == 0
    ensures r.Some? ==> page.Some? && r.value == Min(page.value, pagesCount - 1)
    ensures r.Some? ==> r.value <= pagesCount - 1
    ensures page.Some? && 0 <= page.value < pagesCount ==> r == page
    ensures page.Some? && page.value >= pagesCount > 0 ==> r == Some(pagesCount - 1)
  {
    var clamped := if page.Some? && page.value > pagesCount - 1 then Some(pagesCount - 1) else page;
    if clamped.Some? && pagesCount == 0 then None else clamped
  }

  /** Whether row `i` is drawn: every row without a page, otherwise rows `[page*50, (page+1)*50)`. */
  predicate RowShown(page: Option<int>, i: int) {
    page.None? || (page.value * PageSize <= i < (page.value + 1) * PageSize)
  }

  /** First and one-past-last index of the rows a page shows out of `n`. */
  function PageStart(page: Option<int>, n: nat): (lo: nat)
    ensures lo <= n
  {
    if page.None? then 0 else Min(Max(page.value * PageSize, 0), n)
  }

  function PageEnd(page: Option<int>, n: nat): (hi: nat)
    ensures PageStart(page, n) <= hi <= n
  {
    if page.None? then n else Max(PageStart(page, n), Min((page.value + 1) * PageSize, n))
  }

  /** The rows shown are exactly the indices in the window of the page. */
  lemma PageWindow(page: Option<int>, n: nat, i: int)
    requires 0 <= i < n
    ensures RowShown(page, i) <==> PageStart(page, n) <= i < PageEnd(page, n)
  {
  }

  /** The drawing loop: walks every filtered row and skips those outside the page. */
  method ShownRows(filtered: seq<AssetData>, page: Option<int>) returns (rows: seq<AssetData>)
    ensures rows == filtered[PageStart(page, |filtered|)..PageEnd(page, |filtered|)]
  {
    var lo, hi := PageStart(page, |filtered|), PageEnd(page, |filtered|);
    rows := [];
    var i := 0;
    while i < |filtered|
      invariant 0 <= i <= |filtered|
      invariant rows == filtered[Min(lo, i)..Min(hi, i)]
    {
      PageWindow(page, |filtered|, i);
      if RowShown(page, i) {
        assert filtered[Min(lo, i)..Min(hi, i + 1)] == filtered[Min(lo, i)..Min(hi, i)] + [filtered[i]];
        rows := rows + [filtered[i]];
      }
      i := i + 1;
    }
  }

  // ---------------------------------------------------------------------
  // Deletion (Packages window)
  // ---------------------------------------------------------------------

  /** An asset the delete button removes: not addressable and without references. */
  predicate Deletable(a: AssetData) {
    !a.isAddressable && a.referencesCount == 0
  }

  /** The assets the button deletes: the deletable ones among the filtered rows, in row order. */
  function DeleteCandidates(filtered: seq<AssetData>): (c: seq<AssetData>)
    ensures forall i :: 0 <= i < |c| ==> Deletable(c[i]) && c[i] in filtered
    ensures forall i :: 0 <= i < |filtered| && Deletable(filtered[i]) ==> filtered[i] in c
  {
    Filter(filtered, Deletable)
  }

  /** The button appears only when some filtered row is deletable; its label shows their number. */
  function DeleteButtonCount(filtered: seq<AssetData>): (n: Option<nat>)
    ensures n.Some? <==> exists i :: 0 <= i < |filtered| && Deletable(filtered[i])
    ensures n.Some? ==> n.value == |DeleteCandidates(filtered)| && n.value > 0
  {
    var c := DeleteCandidates(filtered);
    if |filtered| > 0 && |c| > 0 then
      assert c[0] in filtered;
      Some(|c|)
    else
      None
  }

  /** The paths `AssetDatabase.DeleteAsset` reported deleted. */
  function Succeeded(assets: seq<AssetData>, deleteAsset: Path -> bool): seq<AssetData> {
    Filter(assets, (a: AssetData) => deleteAsset(a.path))
  }

  /**
   * `DeleteUnreferencedAssets`: tries every candidate in order, counts the
   * successes and refreshes the asset database only if one succeeded.
   */
  method DeleteUnreferencedAssets(assets: seq<AssetData>, deleteAsset: Path -> bool)
    returns (deletedCount: nat, refreshed: bool)
    ensures deletedCount == |Succeeded(assets, deleteAsset)|
    ensures deletedCount <= |assets|
    ensures refreshed <==> deletedCount > 0
  {
    deletedCount := 0;
    var i := 0;
    while i < |assets|
      invariant 0 <= i <= |assets|
      invariant deletedCount == |Succeeded(assets[..i], deleteAsset)|
    {
      assert assets[..i + 1] == assets[..i] + [assets[i]];
      FilterAppend(assets[..i], [assets[i]], (a: AssetData) => deleteAsset(a.path));
      if deleteAsset(assets[i].path) {
        deletedCount := deletedCount + 1;
      }
      i := i + 1;
    }
    assert assets[..i] == assets;
    refreshed := deletedCount > 0;
  }
}
