/**
 * The three sort buttons of the result table and the `SortType` code that
 * remembers the last one pressed: 0/1 type A-Z/Z-A, 2/3 path A-Z/Z-A,
 * 4/5 size A-Z/Z-A.
 */
module Sorting {
  import opened Strings
  import opened Assets

  datatype SortKey = ByType | ByPath | BySize
  datatype Direction = Ascending | Descending

  /** The `SortType` code of a key and direction. */
  function Code(key: SortKey, dir: Direction): int {
    (match key case ByType => 0 case ByPath => 2 case BySize => 4) + (if dir == Ascending then 0 else 1)
  }

  /**
   * `SortBySize` in the Z-A branch passes `(b, a) => a.BytesSize.CompareTo(b.BytesSize)`:
   * the first argument is named `b`, so this compares the second asset with the first.
   */
  function SizeZtoA(b: AssetData, a: AssetData): int {
    IntCompare(a.bytesSize, b.bytesSize)
  }

  /** The comparison delegate each button passes to `List.Sort`. */
  function Comparison(key: SortKey, dir: Direction, x: AssetData, y: AssetData): int {
    match (key, dir)
    case (ByType, Ascending) => Compare(x.typeName, y.typeName)
    case (ByType, Descending) => Compare(y.typeName, x.typeName)
    case (ByPath, Ascending) => Compare(x.path, y.path)
    case (ByPath, Descending) => Compare(y.path, x.path)
    case (BySize, Ascending) => IntCompare(x.bytesSize, y.bytesSize)
    case (BySize, Descending) => SizeZtoA(x, y)
  }

  /** Ordered as `List.Sort` leaves the list for that comparison. */
  predicate Sorted(key: SortKey, dir: Direction, s: seq<AssetData>) {
    forall i, j :: 0 <= i < j < |s| ==> Comparison(key, dir, s[i], s[j]) <= 0
  }

  /** Every comparison is total: of two assets one may always come first. */
  lemma ComparisonTotal(key: SortKey, dir: Direction, x: AssetData, y: AssetData)
    ensures Comparison(key, dir, x, y) <= 0 || Comparison(key, dir, y, x) <= 0
  {
    match key
    case ByType => CompareAntisymmetric(x.typeName, y.typeName);
    case ByPath => CompareAntisymmetric(x.path, y.path);
    case BySize =>
  }

  /** Every comparison is transitive. */
  lemma ComparisonTransitive(key: SortKey, dir: Direction, x: AssetData, y: AssetData, z: AssetData)
    requires Comparison(key, dir, x, y) <= 0 && Comparison(key, dir, y, z) <= 0
    ensures Comparison(key, dir, x, z) <= 0
  {
    match (key, dir)
    case (ByType, Ascending) => CompareTransitive(x.typeName, y.typeName, z.typeName);
    case (ByType, Descending) => CompareTransitive(z.typeName, y.typeName, x.typeName);
    case (ByPath, Ascending) => CompareTransitive(x.path, y.path, z.path);
    case (ByPath, Descending) => CompareTransitive(z.path, y.path, x.path);
    case (BySize, _) =>
  }

  /** `h` may precede every element of `s`. */
  predicate PrecedesAll(key: SortKey, dir: Direction, h: AssetData, s: seq<AssetData>) {
    forall k :: 0 <= k < |s| ==> Comparison(key, dir, h, s[k]) <= 0
  }

  /** An element that may precede a sorted list keeps it sorted in front of it. */
  lemma ConsSorted(key: SortKey, dir: Direction, h: AssetData, s: seq<AssetData>)
    requires Sorted(key, dir, s) && PrecedesAll(key, dir, h, s)
    ensures Sorted(key, dir, [h] + s)
  {
    forall i, j | 0 <= i < j < |[h] + s| ensures Comparison(key, dir, ([h] + s)[i], ([h] + s)[j]) <= 0 {
      if i > 0 {
        assert ([h] + s)[i] == s[i - 1] && ([h] + s)[j] == s[j - 1];
      } else {
        assert ([h] + s)[j] == s[j - 1];
      }
    }
  }

  /** What may precede the head of a sorted list may precede all of it. */
  lemma PrecedesHead(key: SortKey, dir: Direction, x: AssetData, s: seq<AssetData>)
    requires Sorted(key, dir, s) && |s| > 0 && Comparison(key, dir, x, s[0]) <= 0
    ensures PrecedesAll(key, dir, x, s)
  {
    forall j | 0 <= j < |s| ensures Comparison(key, dir, x, s[j]) <= 0 {
      if j > 0 { ComparisonTransitive(key, dir, x, s[0], s[j]); }
    }
  }

  /** What may precede every element of `s` and `x` may precede every element of a permutation of `s + [x]`. */
  lemma PrecedesPermutation(key: SortKey, dir: Direction, h: AssetData, s: seq<AssetData>, x: AssetData,
                            r: seq<AssetData>)
    requires PrecedesAll(key, dir, h, s) && Comparison(key, dir, h, x) <= 0
    requires multiset(r) == multiset(s) + multiset{x}
    ensures PrecedesAll(key, dir, h, r)
  {
    forall k | 0 <= k < |r| ensures Comparison(key, dir, h, r[k]) <= 0 {
      assert r[k] in multiset(r);
      if r[k] != x {
        assert r[k] in multiset(s);
        var j :| 0 <= j < |s| && s[j] == r[k];
      }
    }
  }

  /** Inserts `x` in front of the first element it may precede. */
  function Insert(key: SortKey, dir: Direction, x: AssetData, s: seq<AssetData>): (r: seq<AssetData>)
    requires Sorted(key, dir, s)
    ensures multiset(r) == multiset(s) + multiset{x}
    ensures Sorted(key, dir, r)
    decreases |s|
  {
    if |s| == 0 then [x]
    else if Comparison(key, dir, x, s[0]) <= 0 then
      PrecedesHead(key, dir, x, s);
      ConsSorted(key, dir, x, s);
      [x] + s
    else
      var rest := Insert(key, dir, x, s[1..]);
      assert s == [s[0]] + s[1..];
      ComparisonTotal(key, dir, x, s[0]);
      assert PrecedesAll(key, dir, s[0], s[1..]) by {
        forall k | 0 <= k < |s[1..]| ensures Comparison(key, dir, s[0], s[1..][k]) <= 0 {
          assert s[1..][k] == s[k + 1];
        }
      }
      PrecedesPermutation(key, dir, s[0], s[1..], x, rest);
      ConsSorted(key, dir, s[0], rest);
      [s[0]] + rest
  }

  /**
   * `List.Sort` with the delegate of `key` and `dir`. `List.Sort` is not
   * stable, so only the order and the permutation are claimed; this
   * insertion sort is one of the admissible results.
   */
  function Sort(key: SortKey, dir: Direction, s: seq<AssetData>): (r: seq<AssetData>)
    ensures multiset(r) == multiset(s)
    ensures Sorted(key, dir, r)
    decreases |s|
  {
    if |s| == 0 then []
    else
      assert s == [s[0]] + s[1..];
      Insert(key, dir, s[0], Sort(key, dir, s[1..]))
  }

  /** The `SortType` code and the asset list it describes. */
  datatype SortState = SortState(sortType: int, assets: seq<AssetData>)

  /**
   * `SortByType`, `SortByPath`, `SortBySize`: pressed while the list is
   * ascending by that key, the button sorts descending; otherwise ascending.
   */
  function Press(st: SortState, key: SortKey): (r: SortState)
    ensures multiset(r.assets) == multiset(st.assets)
    ensures st.sortType == Code(key, Ascending) ==>
      r.sortType == Code(key, Descending) && Sorted(key, Descending, r.assets)
    ensures st.sortType != Code(key, Ascending) ==>
      r.sortType == Code(key, Ascending) && Sorted(key, Ascending, r.assets)
  {
    var dir := if st.sortType == Code(key, Ascending) then Descending else Ascending;
    SortState(Code(key, dir), Sort(key, dir, st.assets))
  }

  /** The codes are pairwise distinct, so the code tells the key and the direction. */
  lemma CodeInjective(k1: SortKey, d1: Direction, k2: SortKey, d2: Direction)
    ensures Code(k1, d1) == Code(k2, d2) <==> k1 == k2 && d1 == d2
    ensures 0 <= Code(k1, d1) <= 5
  {
  }

  /** Pressing the same button twice in a row lists the assets in both directions, one after the other. */
  lemma PressTwiceReverses(st: SortState, key: SortKey)
    ensures var once := Press(st, key);
            var twice := Press(once, key);
            (once.sortType == Code(key, Ascending) <==> twice.sortType == Code(key, Descending))
            && (once.sortType == Code(key, Descending) <==> twice.sortType == Code(key, Ascending))
  {
    CodeInjective(key, Ascending, key, Descending);
  }

  /** In code 4 the size button sorts by descending size, because of the swapped parameter names. */
  lemma SizeButtonFromAscendingSortsDescending(st: SortState)
    requires st.sortType == Code(BySize, Ascending)
    ensures var r := Press(st, BySize).assets;
            forall i, j :: 0 <= i < j < |r| ==> r[i].bytesSize >= r[j].bytesSize
  {
  }

  /** No two assets share a path. */
  predicate DistinctPaths(s: seq<AssetData>) {
    forall i, j :: 0 <= i < j < |s| ==> s[i].path != s[j].path
  }

  /** Two path-sorted permutations of a list with distinct paths start with the same asset. */
  lemma PathOrderSameHead(a: seq<AssetData>, b: seq<AssetData>)
    requires |a| > 0 && multiset(a) == multiset(b)
    requires DistinctPaths(a)
    requires Sorted(ByPath, Ascending, a) && Sorted(ByPath, Ascending, b)
    ensures |b| > 0 && a[0] == b[0]
  {
    assert a[0] in multiset(b);
    var k :| 0 <= k < |b| && b[k] == a[0];
    assert b[0] in multiset(a);
    var m :| 0 <= m < |a| && a[m] == b[0];
    if k != 0 && m != 0 {
      assert Compare(a[m].path, a[0].path) <= 0;
      CompareAntisymmetric(a[0].path, a[m].path);
      CompareZeroIffEqual(a[0].path, a[m].path);
      assert false;
    }
  }

  /**
   * Sorting by ascending path has one outcome when the paths are distinct,
   * so the lack of stability of `List.Sort` does not show there.
   */
  lemma {:induction false} PathOrderUnique(a: seq<AssetData>, b: seq<AssetData>)
    requires multiset(a) == multiset(b)
    requires DistinctPaths(a)
    requires Sorted(ByPath, Ascending, a) && Sorted(ByPath, Ascending, b)
    ensures a == b
    decreases |a|
  {
    if |a| == 0 {
      assert |b| == |multiset(b)| == 0;
    } else {
      PathOrderSameHead(a, b);
      TailsPermuted(a, b);
      PathOrderUnique(a[1..], b[1..]);
      assert a == [a[0]] + a[1..];
      assert b == [b[0]] + b[1..];
    }
  }

  /** Two permutations with the same head have permuted tails. */
  lemma TailsPermuted(a: seq<AssetData>, b: seq<AssetData>)
    requires |a| > 0 && |b| > 0 && a[0] == b[0] && multiset(a) == multiset(b)
    ensures multiset(a[1..]) == multiset(b[1..])
  {
    assert a == [a[0]] + a[1..];
    assert b == [b[0]] + b[1..];
    assert multiset(a[1..]) == multiset(a) - multiset{a[0]};
    assert multiset(b[1..]) == multiset(b) - multiset{b[0]};
  }
}
