/**
 * The reverse-dependency index: for every asset path, the assets that list it
 * as a dependency. Each window builds it with one of two loops: the guarded
 * one skips a dependency that is not a key of the map, the unguarded one
 * indexes the map with it and so throws `KeyNotFoundException`.
 */
module ReverseMap {
  import opened Common
  import opened Assets

  /** Path of an asset to the paths of the assets that depend on it. */
  type RefMap = map<Path, seq<Path>>

  /**
   * Outcome of a build. The unguarded builders write the dictionary into a
   * field passed as `out` before the loop starts, so after the exception the
   * caller keeps the map filled up to the failing dependency: `partial`.
   */
  datatype Fill = Filled(refs: RefMap) | Thrown(missing: Path, partial: RefMap) {
    function Map(): RefMap {
      if Filled? then refs else partial
    }
  }

  /** `assetPaths.ToDictionary(p => p, p => new List<string>())`. */
  function EmptyMap(paths: seq<Path>): (m: RefMap)
    ensures m.Keys == set p | p in paths
    ensures forall d :: d in m ==> m[d] == []
  {
    map p | p in paths :: []
  }

  /** The inner `foreach` over the dependencies `ds` of asset `a`. */
  function AddReferrer(m: RefMap, a: Path, ds: seq<Path>, guarded: bool): (f: Fill)
    ensures f.Map().Keys == m.Keys
    decreases |ds|
  {
    if |ds| == 0 then Filled(m)
    else
      var d := ds[0];
      if d == a then AddReferrer(m, a, ds[1..], guarded)
      else if d in m then AddReferrer(m[d := m[d] + [a]], a, ds[1..], guarded)
      else if guarded then AddReferrer(m, a, ds[1..], guarded)
      else Thrown(d, m)
  }

  /** The outer `for` loop over `paths`, asking `deps` for each asset's dependencies. */
  function FillFrom(m: RefMap, paths: seq<Path>, deps: Path -> seq<Path>, guarded: bool): (f: Fill)
    ensures f.Map().Keys == m.Keys
    decreases |paths|
  {
    if |paths| == 0 then Filled(m)
    else
      match AddReferrer(m, paths[0], deps(paths[0]), guarded)
      case Thrown(d, p) => Thrown(d, p)
      case Filled(m') => FillFrom(m', paths[1..], deps, guarded)
  }

  /**
   * `FillReverseDependenciesMap`. The paths must be distinct: `ToDictionary`
   * and `Dictionary.Add` throw on a repeated key, and the asset database
   * never lists a path twice.
   */
  function Build(paths: seq<Path>, deps: Path -> seq<Path>, guarded: bool): (f: Fill)
    requires Distinct(paths)
    ensures f.Map().Keys == set p | p in paths
  {
    FillFrom(EmptyMap(paths), paths, deps, guarded)
  }

  /** The dependency query with the `recursive` argument fixed. */
  function DepsOf(project: Project, recursive: bool): Path -> seq<Path> {
    p => project.dependencies(p, recursive)
  }

  /** The map the `Editor/` and `Packages/` code builds: direct dependencies, guarded. */
  function ReferenceMap(project: Project): (m: RefMap)
    requires Distinct(project.paths)
    ensures m.Keys == set p | p in project.paths
  {
    Build(project.paths, DepsOf(project, false), true).Map()
  }

  // ---------------------------------------------------------------------
  // Reference definition of the index
  // ---------------------------------------------------------------------

  /** How often asset `a` is appended to the list of `d` while scanning `ds`. */
  function Occurrences(a: Path, ds: seq<Path>, d: Path): nat {
    if a == d then 0 else Count(ds, d)
  }

  /** Every referrer of `d` among `paths`, in path order, once per listing of `d`. */
  function RefsOf(paths: seq<Path>, deps: Path -> seq<Path>, d: Path): seq<Path>
    decreases |paths|
  {
    if |paths| == 0 then []
    else Copies(paths[0], Occurrences(paths[0], deps(paths[0]), d)) + RefsOf(paths[1..], deps, d)
  }

  /** Every dependency an asset in `paths` reports is itself or a key of the map. */
  predicate AllKnown(paths: seq<Path>, deps: Path -> seq<Path>, keys: set<Path>) {
    forall i, j :: 0 <= i < |paths| && 0 <= j < |deps(paths[i])| ==>
      deps(paths[i])[j] == paths[i] || deps(paths[i])[j] in keys
  }

  /** Every entry of every list is a genuine referrer: a known asset, not the key itself, depending on the key. */
  predicate Sound(m: RefMap, paths: seq<Path>, deps: Path -> seq<Path>) {
    forall d, k :: d in m && 0 <= k < |m[d]| ==>
      m[d][k] in paths && m[d][k] != d && d in deps(m[d][k])
  }

  // ---------------------------------------------------------------------
  // The builders against the reference definition
  // ---------------------------------------------------------------------

  /** One asset's pass appends it to the list of each known dependency, once per listing. */
  lemma AddReferrerAppends(m: RefMap, a: Path, ds: seq<Path>, guarded: bool)
    requires AddReferrer(m, a, ds, guarded).Filled?
    ensures forall d :: d in m ==>
      AddReferrer(m, a, ds, guarded).refs[d] == m[d] + Copies(a, Occurrences(a, ds, d))
  {
    forall d | d in m
      ensures AddReferrer(m, a, ds, guarded).refs[d] == m[d] + Copies(a, Occurrences(a, ds, d))
    {
      AddReferrerAppendsAt(m, a, ds, guarded, d);
    }
  }

  /** `AddReferrerAppends` for one key `d`. */
  lemma {:induction false} AddReferrerAppendsAt(m: RefMap, a: Path, ds: seq<Path>, guarded: bool, d: Path)
    requires AddReferrer(m, a, ds, guarded).Filled? && d in m
    ensures AddReferrer(m, a, ds, guarded).refs[d] == m[d] + Copies(a, Occurrences(a, ds, d))
    decreases |ds|
  {
    if |ds| > 0 {
      var x := ds[0];
      assert ds == [x] + ds[1..];
      if x == a || x !in m {
        AddReferrerAppendsAt(m, a, ds[1..], guarded, d);
        assert Occurrences(a, ds, d) == Occurrences(a, ds[1..], d);
      } else {
        var m' := m[x := m[x] + [a]];
        AddReferrerAppendsAt(m', a, ds[1..], guarded, d);
        if d == x {
          assert Occurrences(a, ds, d) == Occurrences(a, ds[1..], d) + 1;
          assert (m[x] + [a]) + Copies(a, Occurrences(a, ds[1..], d))
              == m[x] + ([a] + Copies(a, Occurrences(a, ds[1..], d)));
        } else {
          assert Occurrences(a, ds, d) == Occurrences(a, ds[1..], d);
        }
      }
    }
  }

  /** The guarded pass never throws; the unguarded one throws iff some dependency other than `a` is unknown. */
  lemma {:induction false} AddReferrerThrows(m: RefMap, a: Path, ds: seq<Path>, guarded: bool)
    ensures guarded ==> AddReferrer(m, a, ds, guarded).Filled?
    ensures !guarded ==>
      (AddReferrer(m, a, ds, guarded).Filled? <==> forall j :: 0 <= j < |ds| ==> ds[j] == a || ds[j] in m)
    ensures AddReferrer(m, a, ds, guarded).Thrown? ==>
      var x := AddReferrer(m, a, ds, guarded).missing; x in ds && x != a && x !in m
    decreases |ds|
  {
    if |ds| > 0 {
      var x := ds[0];
      var m' := if x != a && x in m then m[x := m[x] + [a]] else m;
      AddReferrerThrows(m', a, ds[1..], guarded);
      assert forall j :: 1 <= j < |ds| ==> ds[j] == ds[1..][j - 1];
    }
  }

  /** Adding genuine referrers keeps every list sound, whether or not the pass throws. */
  lemma {:induction false} AddReferrerSound(m: RefMap, a: Path, ds: seq<Path>, guarded: bool,
                                            paths: seq<Path>, deps: Path -> seq<Path>)
    requires Sound(m, paths, deps)
    requires a in paths
    requires forall j :: 0 <= j < |ds| ==> ds[j] in deps(a)
    ensures Sound(AddReferrer(m, a, ds, guarded).Map(), paths, deps)
    decreases |ds|
  {
    if |ds| > 0 {
      var x := ds[0];
      if x != a && x in m {
        var m' := m[x := m[x] + [a]];
        forall d, k | d in m' && 0 <= k < |m'[d]|
          ensures m'[d][k] in paths && m'[d][k] != d && d in deps(m'[d][k])
        {
          if d == x && k == |m[x]| {
            assert m'[d][k] == a;
          } else {
            assert m'[d][k] == m[d][k];
          }
        }
        AddReferrerSound(m', a, ds[1..], guarded, paths, deps);
      } else {
        AddReferrerSound(m, a, ds[1..], guarded, paths, deps);
      }
    }
  }

  /** A completed loop is the first asset's completed pass followed by the loop over the rest. */
  lemma FillFromUnfold(m: RefMap, paths: seq<Path>, deps: Path -> seq<Path>, guarded: bool)
    requires |paths| > 0 && FillFrom(m, paths, deps, guarded).Filled?
    ensures AddReferrer(m, paths[0], deps(paths[0]), guarded).Filled?
    ensures FillFrom(m, paths, deps, guarded)
         == FillFrom(AddReferrer(m, paths[0], deps(paths[0]), guarded).refs, paths[1..], deps, guarded)
  {
  }

  /** Concatenation is associative. */
  lemma AppendAssociates(x: seq<Path>, y: seq<Path>, z: seq<Path>)
    ensures (x + y) + z == x + (y + z)
  {
  }

  /** The full loop: each list gains exactly the reference referrers of the scanned paths. */
  lemma {:induction false} FillFromAppends(m: RefMap, paths: seq<Path>, deps: Path -> seq<Path>, guarded: bool,
                                           d: Path)
    requires FillFrom(m, paths, deps, guarded).Filled?
    requires d in m
    ensures FillFrom(m, paths, deps, guarded).refs[d] == m[d] + RefsOf(paths, deps, d)
    decreases |paths|
  {
    if |paths| == 0 {
      assert m[d] + [] == m[d];
    } else {
      var a := paths[0];
      var step := AddReferrer(m, a, deps(a), guarded);
      FillFromUnfold(m, paths, deps, guarded);
      AddReferrerAppendsAt(m, a, deps(a), guarded, d);
      var c := Copies(a, Occurrences(a, deps(a), d));
      FillFromAppends(step.refs, paths[1..], deps, guarded, d);
      AppendAssociates(m[d], c, RefsOf(paths[1..], deps, d));
    }
  }

  /** The guarded loop always completes; the unguarded one completes iff every dependency is known. */
  lemma {:induction false} FillFromThrows(m: RefMap, paths: seq<Path>, deps: Path -> seq<Path>, guarded: bool)
    ensures guarded ==> FillFrom(m, paths, deps, guarded).Filled?
    ensures !guarded ==> (FillFrom(m, paths, deps, guarded).Filled? <==> AllKnown(paths, deps, m.Keys))
    ensures FillFrom(m, paths, deps, guarded).Thrown? ==>
      var x := FillFrom(m, paths, deps, guarded).missing;
      x !in m && exists i :: 0 <= i < |paths| && x in deps(paths[i]) && x != paths[i]
    decreases |paths|
  {
    if |paths| > 0 {
      var a := paths[0];
      var step := AddReferrer(m, a, deps(a), guarded);
      AddReferrerThrows(m, a, deps(a), guarded);
      if step.Filled? {
        FillFromThrows(step.refs, paths[1..], deps, guarded);
        if !guarded {
          assert AllKnown(paths, deps, m.Keys) <==>
            (forall j :: 0 <= j < |deps(a)| ==> deps(a)[j] == a || deps(a)[j] in m)
            && AllKnown(paths[1..], deps, m.Keys)
          by {
            assert forall i :: 1 <= i < |paths| ==> paths[i] == paths[1..][i - 1];
          }
        }
        var f := FillFrom(step.refs, paths[1..], deps, guarded);
        if f.Thrown? {
          var i :| 0 <= i < |paths[1..]| && f.missing in deps(paths[1..][i]) && f.missing != paths[1..][i];
          assert paths[i + 1] == paths[1..][i];
        }
      } else {
        var x := step.missing;
        if !guarded {
          var j :| 0 <= j < |deps(a)| && deps(a)[j] == x;
          assert !(deps(paths[0])[j] == paths[0] || deps(paths[0])[j] in m.Keys);
        }
        assert x in deps(paths[0]) && x != paths[0];
      }
    }
  }

  /** The partial map of an aborted build still lists only genuine referrers. */
  lemma {:induction false} FillFromSound(m: RefMap, rest: seq<Path>, deps: Path -> seq<Path>, guarded: bool,
                                         paths: seq<Path>)
    requires Sound(m, paths, deps)
    requires forall i :: 0 <= i < |rest| ==> rest[i] in paths
    ensures Sound(FillFrom(m, rest, deps, guarded).Map(), paths, deps)
    decreases |rest|
  {
    if |rest| > 0 {
      var a := rest[0];
      AddReferrerSound(m, a, deps(a), guarded, paths, deps);
      var step := AddReferrer(m, a, deps(a), guarded);
      if step.Filled? {
        FillFromSound(step.refs, rest[1..], deps, guarded, paths);
      }
    }
  }

  // ---------------------------------------------------------------------
  // Properties of the reference definition
  // ---------------------------------------------------------------------

  /** `a` refers to `d` iff `a` is a scanned asset other than `d` whose dependencies contain `d`. */
  lemma {:induction false} RefsOfMembership(paths: seq<Path>, deps: Path -> seq<Path>, d: Path, a: Path)
    ensures a in RefsOf(paths, deps, d) <==> a in paths && a != d && d in deps(a)
    decreases |paths|
  {
    if |paths| > 0 {
      var p := paths[0];
      RefsOfMembership(paths[1..], deps, d, a);
      CopiesMembership(p, Occurrences(p, deps(p), d), a);
      assert paths == [p] + paths[1..];
    }
  }

  /** An asset never lists itself among its referrers. */
  lemma NoSelfReference(paths: seq<Path>, deps: Path -> seq<Path>, d: Path)
    ensures d !in RefsOf(paths, deps, d)
  {
    RefsOfMembership(paths, deps, d, d);
  }

  /** An asset has no referrers iff no other scanned asset depends on it. */
  lemma Unreferenced(paths: seq<Path>, deps: Path -> seq<Path>, d: Path)
    ensures |RefsOf(paths, deps, d)| == 0 <==> forall a :: a in paths && a != d ==> d !in deps(a)
  {
    var r := RefsOf(paths, deps, d);
    if |r| > 0 {
      RefsOfMembership(paths, deps, d, r[0]);
    }
    forall a | a in paths && a != d && d in deps(a)
      ensures |r| > 0
    {
      RefsOfMembership(paths, deps, d, a);
    }
  }

  // ---------------------------------------------------------------------
  // The builders as a whole
  // ---------------------------------------------------------------------

  /**
   * The guarded build (`Editor/` and `Packages/` windows) never throws; its
   * keys are the asset paths and the list of `d` is exactly `RefsOf(d)`.
   */
  lemma GuardedBuild(paths: seq<Path>, deps: Path -> seq<Path>)
    requires Distinct(paths)
    ensures Build(paths, deps, true).Filled?
    ensures forall d :: d in paths ==> Build(paths, deps, true).refs[d] == RefsOf(paths, deps, d)
  {
    var m := EmptyMap(paths);
    FillFromThrows(m, paths, deps, true);
    var r := FillFrom(m, paths, deps, true).refs;
    forall d | d in paths
      ensures r[d] == RefsOf(paths, deps, d)
    {
      assert d in m && m[d] == [];
      FillFromAppends(m, paths, deps, true, d);
      assert r[d] == [] + RefsOf(paths, deps, d);
    }
  }

  /**
   * The unguarded build (`DependenciesHunter/` windows) completes iff every
   * dependency is a known path, and then agrees with the reference definition;
   * otherwise it reports an unknown dependency and leaves a sound partial map.
   */
  lemma UnguardedBuild(paths: seq<Path>, deps: Path -> seq<Path>)
    requires Distinct(paths)
    ensures Build(paths, deps, false).Filled? <==> AllKnown(paths, deps, set p | p in paths)
    ensures Build(paths, deps, false).Filled? ==>
      forall d :: d in paths ==> Build(paths, deps, false).refs[d] == RefsOf(paths, deps, d)
    ensures Build(paths, deps, false).Thrown? ==>
      var x := Build(paths, deps, false).missing;
      x !in paths && exists i :: 0 <= i < |paths| && x in deps(paths[i]) && x != paths[i]
    ensures Sound(Build(paths, deps, false).Map(), paths, deps)
  {
    var m := EmptyMap(paths);
    FillFromThrows(m, paths, deps, false);
    if Build(paths, deps, false).Filled? {
      var r := FillFrom(m, paths, deps, false).refs;
      forall d | d in paths
        ensures r[d] == RefsOf(paths, deps, d)
      {
        assert d in m && m[d] == [];
        FillFromAppends(m, paths, deps, false, d);
        assert r[d] == [] + RefsOf(paths, deps, d);
      }
    }
    FillFromSound(m, paths, deps, false, paths);
  }

  /** When every dependency is known the two loops build the same map. */
  lemma GuardIrrelevantWhenAllKnown(paths: seq<Path>, deps: Path -> seq<Path>)
    requires Distinct(paths)
    requires AllKnown(paths, deps, set p | p in paths)
    ensures Build(paths, deps, false) == Build(paths, deps, true)
  {
    GuardedBuild(paths, deps);
    UnguardedBuild(paths, deps);
    var g, u := Build(paths, deps, true).refs, Build(paths, deps, false).refs;
    assert forall d :: d in g ==> g[d] == u[d];
  }

  /** In a completed build, `a` is listed under `d` iff `a` depends on `d`, `a != d`, and `d` is a known path. */
  lemma ListedIff(paths: seq<Path>, deps: Path -> seq<Path>, guarded: bool, d: Path, a: Path)
    requires Distinct(paths)
    requires Build(paths, deps, guarded).Filled?
    ensures d in Build(paths, deps, guarded).refs <==> d in paths
    ensures d in paths ==>
      (a in Build(paths, deps, guarded).refs[d] <==> a in paths && a != d && d in deps(a))
  {
    if guarded { GuardedBuild(paths, deps); } else { UnguardedBuild(paths, deps); }
    RefsOfMembership(paths, deps, d, a);
  }
}
