/**
 * The ignore-pattern list of the analysis windows and its persistence in
 * `EditorPrefs`: the count under the base key, entry `i` under `key_i`.
 */
module Patterns {
  import opened Common
  import opened Strings

  /** The part of the `EditorPrefs` store the windows use: integer and string entries. */
  datatype Prefs = Prefs(ints: map<string, int>, strings: map<string, string>)

  /** `EditorPrefs.GetInt(key, defaultValue)`. */
  function GetInt(prefs: Prefs, key: string, default: int): int {
    if key in prefs.ints then prefs.ints[key] else default
  }

  /** `EditorPrefs.GetString(key)`: the empty string when the key was never set. */
  function GetString(prefs: Prefs, key: string): string {
    if key in prefs.strings then prefs.strings[key] else ""
  }

  function SetInt(prefs: Prefs, key: string, value: int): Prefs {
    prefs.(ints := prefs.ints[key := value])
  }

  function SetString(prefs: Prefs, key: string, value: string): Prefs {
    prefs.(strings := prefs.strings[key := value])
  }

  /** `PATTERNS_PREFS_KEY`: holds the number of stored patterns. */
  const PatternsKey: string := "DependencyHunterIgnorePatterns"

  /** `$"{PATTERNS_PREFS_KEY}_{i}"`: holds pattern `i`. */
  function EntryKey(i: nat): string {
    PatternsKey + "_" + NatToString(i)
  }

  /** Distinct indices use distinct keys, none of them the count key. */
  lemma EntryKeyInjective(i: nat, j: nat)
    ensures EntryKey(i) == EntryKey(j) <==> i == j
    ensures EntryKey(i) != PatternsKey
  {
    if EntryKey(i) == EntryKey(j) {
      var n := |PatternsKey + "_"|;
      assert EntryKey(i)[n..] == NatToString(i);
      assert EntryKey(j)[n..] == NatToString(j);
      NatToStringInjective(i, j);
    }
    assert |EntryKey(i)| > |PatternsKey|;
  }

  /** The thirteen patterns a fresh installation ignores, as the C# verbatim strings spell them. */
  const DefaultIgnorePatterns: seq<string> := [
    "/Resources/",
    "/Editor/",
    "/Editor Default Resources/",
    "/ThirdParty/",
    "ProjectSettings/",
    "Packages/",
    "\\.asmdef$",
    "link\\.xml$",
    "\\.csv$",
    "\\.md$",
    "\\.json$",
    "\\.xml$",
    "\\.txt$"
  ]

  /** The stored entries `lo`, `lo + 1`, ..., `hi - 1`; nothing when `hi <= lo`. */
  function ReadEntries(prefs: Prefs, lo: nat, hi: int): (r: seq<string>)
    ensures |r| == Max(hi - lo, 0)
    ensures forall k :: 0 <= k < |r| ==> r[k] == GetString(prefs, EntryKey(lo + k))
    decreases hi - lo
  {
    if hi <= lo then []
    else [GetString(prefs, EntryKey(lo))] + ReadEntries(prefs, lo + 1, hi)
  }

  /**
   * The loading branch of `EnsurePatternsLoaded`: a count of -1 (the default
   * for a missing key) yields a copy of the defaults; any other count `c`
   * yields the stored entries `0 .. c-1`, none when `c` is negative.
   */
  function LoadPatterns(prefs: Prefs): (ps: seq<string>)
    ensures GetInt(prefs, PatternsKey, -1) == -1 ==> ps == DefaultIgnorePatterns
    ensures GetInt(prefs, PatternsKey, -1) != -1 ==>
      |ps| == Max(GetInt(prefs, PatternsKey, -1), 0) &&
      forall i :: 0 <= i < |ps| ==> ps[i] == GetString(prefs, EntryKey(i))
  {
    var count := GetInt(prefs, PatternsKey, -1);
    if count == -1 then DefaultIgnorePatterns else ReadEntries(prefs, 0, count)
  }

  /** `EnsurePatternsLoaded`: loads once; a list already in memory is kept as it is. */
  function EnsurePatternsLoaded(current: Option<seq<string>>, prefs: Prefs): (r: seq<string>)
    ensures current.Some? ==> r == current.value
    ensures current.None? ==> r == LoadPatterns(prefs)
  {
    match current
    case Some(ps) => ps
    case None => LoadPatterns(prefs)
  }

  /** The `for` loop of `SavePatterns` from index `i` on. */
  function WriteEntries(prefs: Prefs, ps: seq<string>, i: nat): (r: Prefs)
    ensures r.ints == prefs.ints
    ensures forall k :: i <= k < |ps| ==> GetString(r, EntryKey(k)) == ps[k]
    ensures forall key :: (forall k :: i <= k < |ps| ==> key != EntryKey(k)) ==> GetString(r, key) == GetString(prefs, key)
    decreases |ps| - i
  {
    if i >= |ps| then prefs
    else
      var r := WriteEntries(SetString(prefs, EntryKey(i), ps[i]), ps, i + 1);
      assert forall k :: i + 1 <= k < |ps| ==> EntryKey(k) != EntryKey(i) by {
        forall k | i + 1 <= k < |ps| { EntryKeyInjective(k, i); }
      }
      r
  }

  /**
   * `SavePatterns`: stores the count and entries `0 .. n-1`. Entries at
   * higher indices from an earlier, longer list stay in the store.
   */
  function SavePatterns(prefs: Prefs, ps: seq<string>): (r: Prefs)
    ensures GetInt(r, PatternsKey, -1) == |ps|
    ensures forall key :: key != PatternsKey ==> GetInt(r, key, -1) == GetInt(prefs, key, -1)
    ensures forall i :: 0 <= i < |ps| ==> GetString(r, EntryKey(i)) == ps[i]
    ensures forall i :: |ps| <= i ==> GetString(r, EntryKey(i)) == GetString(prefs, EntryKey(i))
  {
    var r := WriteEntries(SetInt(prefs, PatternsKey, |ps|), ps, 0);
    forall i | |ps| <= i
      ensures GetString(r, EntryKey(i)) == GetString(prefs, EntryKey(i))
    {
      forall k | 0 <= k < |ps| ensures EntryKey(i) != EntryKey(k) { EntryKeyInjective(i, k); }
    }
    r
  }

  /** Saving and then loading gives back the same list. */
  lemma SaveLoadRoundTrip(prefs: Prefs, ps: seq<string>)
    ensures LoadPatterns(SavePatterns(prefs, ps)) == ps
  {
  }

  /** A pattern list edit: the new list and whether it differs from the one shown (`isDirty`). */
  datatype Edit = Edit(patterns: seq<string>, dirty: bool)

  /**
   * The count field: the typed value is clamped to at least 0; a smaller
   * count drops entries from the end, a larger one appends the stored
   * entries at the new indices; any change of count marks the list dirty.
   */
  function EditCount(ps: seq<string>, typed: int, prefs: Prefs): (e: Edit)
    ensures |e.patterns| == Max(0, typed)
    ensures forall i :: 0 <= i < Min(|ps|, |e.patterns|) ==> e.patterns[i] == ps[i]
    ensures forall i :: |ps| <= i < |e.patterns| ==> e.patterns[i] == GetString(prefs, EntryKey(i))
    ensures e.dirty <==> |e.patterns| != |ps|
  {
    var newCount := Max(0, typed);
    if newCount < |ps| then Edit(ps[..newCount], true)
    else Edit(ps + ReadEntries(prefs, |ps|, newCount), newCount != |ps|)
  }

  /** The text fields: one value per entry; an entry that changes marks the list dirty. */
  function EditEntries(ps: seq<string>, typed: seq<string>): (e: Edit)
    requires |typed| == |ps|
    ensures e.patterns == typed
    ensures e.dirty <==> exists i :: 0 <= i < |ps| && ps[i] != typed[i]
    decreases |ps|
  {
    if |ps| == 0 then Edit([], false)
    else
      var rest := EditEntries(ps[1..], typed[1..]);
      assert typed == [typed[0]] + typed[1..];
      assert forall i :: 1 <= i < |ps| ==> ps[i] == ps[1..][i - 1] && typed[i] == typed[1..][i - 1];
      Edit(typed, ps[0] != typed[0] || rest.dirty)
  }

  /** What the user does in one pass over the open settings foldout. */
  datatype PatternsInput = PatternsInput(setDefault: bool, typedCount: int, typedEntries: seq<string>)

  /** The window's patterns and the store after one pass. */
  datatype PatternsState = PatternsState(patterns: seq<string>, prefs: Prefs)

  /**
   * Whether a pass leaves the list dirty, stated on the list shown and the
   * user's input alone: "Set Default" was pressed, or the typed list differs
   * from the shown one in its length or in some entry.
   */
  predicate GuiDirty(ps: seq<string>, input: PatternsInput) {
    input.setDefault
    || |input.typedEntries| != |ps|
    || exists i :: 0 <= i < |ps| && input.typedEntries[i] != ps[i]
  }

  /**
   * One pass of the settings GUI: "Set Default", then the count field, then
   * the entry fields, then a save if anything made the list dirty.
   */
  function PatternsGui(ps: seq<string>, prefs: Prefs, input: PatternsInput): (st: PatternsState)
    requires |input.typedEntries| == Max(0, input.typedCount)
    ensures st.patterns == input.typedEntries
    ensures st.prefs == prefs || st.prefs == SavePatterns(prefs, st.patterns)
    ensures input.setDefault ==> st.prefs == SavePatterns(prefs, st.patterns)
    ensures Max(0, input.typedCount) != |if input.setDefault then DefaultIgnorePatterns else ps| ==>
      st.prefs == SavePatterns(prefs, st.patterns)
    ensures GuiDirty(ps, input) ==> st.prefs == SavePatterns(prefs, st.patterns)
    ensures !GuiDirty(ps, input) ==> st.prefs == prefs && st.patterns == ps
  {
    var start := if input.setDefault then Edit(DefaultIgnorePatterns, true) else Edit(ps, false);
    var counted := EditCount(start.patterns, input.typedCount, prefs);
    var typed := EditEntries(counted.patterns, input.typedEntries);
    if start.dirty || counted.dirty || typed.dirty then PatternsState(typed.patterns, SavePatterns(prefs, typed.patterns))
    else PatternsState(typed.patterns, prefs)
  }

  /** The store always describes the list in memory: loading it after any GUI pass yields that list. */
  lemma PatternsGuiKeepsStoreInSync(ps: seq<string>, prefs: Prefs, input: PatternsInput)
    requires |input.typedEntries| == Max(0, input.typedCount)
    requires LoadPatterns(prefs) == ps
    ensures LoadPatterns(PatternsGui(ps, prefs, input).prefs) == PatternsGui(ps, prefs, input).patterns
  {
    var st := PatternsGui(ps, prefs, input);
    var start := if input.setDefault then Edit(DefaultIgnorePatterns, true) else Edit(ps, false);
    var counted := EditCount(start.patterns, input.typedCount, prefs);
    var typed := EditEntries(counted.patterns, input.typedEntries);
    if start.dirty || counted.dirty || typed.dirty {
      SaveLoadRoundTrip(prefs, st.patterns);
    } else {
      assert counted.patterns == ps;
    }
  }

  /**
   * Shrinking the count saves the shorter list but leaves the dropped
   * entries in the store, so growing the count again brings them back.
   */
  lemma ShrinkThenGrowRestores(prefs: Prefs, ps: seq<string>, n: nat)
    requires n <= |ps|
    ensures var shrunk := EditCount(ps, n, SavePatterns(prefs, ps)).patterns;
            var store := SavePatterns(SavePatterns(prefs, ps), shrunk);
            EditCount(shrunk, |ps|, store).patterns == ps
  {
    var saved := SavePatterns(prefs, ps);
    var shrunk := EditCount(ps, n, saved).patterns;
    assert shrunk == ps[..n];
    var store := SavePatterns(saved, shrunk);
    var grown := EditCount(shrunk, |ps|, store).patterns;
    assert |grown| == |ps|;
    forall i | 0 <= i < |ps|
      ensures grown[i] == ps[i]
    {
      if i >= n {
        assert GetString(store, EntryKey(i)) == GetString(saved, EntryKey(i));
      }
    }
  }
}
