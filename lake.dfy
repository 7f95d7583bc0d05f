/**
 * The file tree under the project directory, as `pathlib` sees it. Every
 * existing directory maps to the names of the regular files directly in it;
 * each feed directory's `_metadata.json` manifest is kept apart, already decoded.
 */
module Lake {
  import opened PyText
  import opened JsonDoc

  /** A path relative to the project directory, one entry per segment. */
  type Path = seq<string>

  datatype Lake = Lake(dirs: map<Path, seq<string>>, manifests: map<Path, Doc>)

  /** `q` is `root` or lies below it. */
  predicate Under(q: Path, root: Path) {
    |root| <= |q| && q[..|root|] == root
  }

  /** The names of the subdirectories of `base` (`base.iterdir()` filtered by `is_dir()`). */
  function Children(lake: Lake, base: Path): set<string> {
    set p | p in lake.dirs && |p| == |base| + 1 && p[..|base|] == base :: p[|base|]
  }

  lemma ChildrenMembers(lake: Lake, base: Path, n: string)
    ensures n in Children(lake, base) <==> base + [n] in lake.dirs
  {
    var p := base + [n];
    assert p[..|base|] == base && p[|base|] == n;
    if n in Children(lake, base) {
      var q :| q in lake.dirs && |q| == |base| + 1 && q[..|base|] == base && q[|base|] == n;
      assert q == p;
    }
  }

  /** `base.glob(prefix + "*")` over the subdirectories of `base`. */
  function Glob(lake: Lake, base: Path, prefix: string): set<string> {
    set n | n in Children(lake, base) && StartsWith(n, prefix)
  }

  /** The glob lists exactly the subdirectories of `base` whose names start with the prefix. */
  lemma GlobMembers(lake: Lake, base: Path, prefix: string)
    ensures forall n :: n in Glob(lake, base, prefix) <==> base + [n] in lake.dirs && StartsWith(n, prefix)
  {
    forall n ensures n in Children(lake, base) <==> base + [n] in lake.dirs {
      ChildrenMembers(lake, base, n);
    }
  }

  predicate IsParquet(name: string) {
    EndsWith(name, ".parquet")
  }

  /** `len(list(p.glob("*.parquet")))`: the Parquet files directly in `p`. */
  function DirectParquetCount(lake: Lake, p: Path): nat
    requires p in lake.dirs
  {
    |set f | f in lake.dirs[p] && IsParquet(f)|
  }

  /** `q` lies in the subtree of one of `roots`. */
  predicate Covered(q: Path, roots: set<Path>) {
    exists r :: r in roots && Under(q, r)
  }

  /** Every Parquet file in the subtrees of `roots` (what `rglob("*.parquet")` finds), as (directory, name). */
  function ParquetFilesIn(lake: Lake, roots: set<Path>): set<(Path, string)> {
    set q, f | q in lake.dirs && f in lake.dirs[q] && IsParquet(f) && Covered(q, roots) :: (q, f)
  }

  /** `shutil.rmtree` applied to each of `roots`: their whole subtrees disappear. */
  function Prune(lake: Lake, roots: set<Path>): Lake {
    Lake(map q | q in lake.dirs && !Covered(q, roots) :: lake.dirs[q],
         map q | q in lake.manifests && !Covered(q, roots) :: lake.manifests[q])
  }

  /** After `rmtree`, what lies in a removed subtree is gone and everything else is as it was. */
  lemma PruneEffect(lake: Lake, roots: set<Path>)
    ensures forall q :: q in Prune(lake, roots).dirs <==> q in lake.dirs && !Covered(q, roots)
    ensures forall q :: q in Prune(lake, roots).dirs ==> Prune(lake, roots).dirs[q] == lake.dirs[q]
    ensures forall q :: q in Prune(lake, roots).manifests <==> q in lake.manifests && !Covered(q, roots)
    ensures forall q :: q in Prune(lake, roots).manifests ==> Prune(lake, roots).manifests[q] == lake.manifests[q]
  {
  }

  /** Removing no subtree changes nothing and removes no file. */
  lemma PruneNothing(lake: Lake)
    ensures Prune(lake, {}) == lake && ParquetFilesIn(lake, {}) == {}
  {
    assert Prune(lake, {}).dirs == lake.dirs;
    assert Prune(lake, {}).manifests == lake.manifests;
  }

  /** `path.mkdir(parents=True, exist_ok=True)`. */
  function MkDirs(lake: Lake, p: Path): (r: Lake)
    ensures |p| > 0 ==> p in r.dirs
    ensures r.manifests == lake.manifests
  {
    var r := lake.(dirs := lake.dirs + map i | 1 <= i <= |p| && p[..i] !in lake.dirs :: p[..i] := []);
    assert |p| > 0 ==> p[..|p|] == p;
    r
  }

  /** After `mkdir(parents=True)`, `p` and all its ancestors exist, and nothing else was added or changed. */
  lemma MkDirsEffect(lake: Lake, p: Path)
    ensures forall i :: 1 <= i <= |p| ==> p[..i] in MkDirs(lake, p).dirs
    ensures forall q :: q in lake.dirs ==> q in MkDirs(lake, p).dirs && MkDirs(lake, p).dirs[q] == lake.dirs[q]
    ensures forall q :: q in MkDirs(lake, p).dirs ==> q in lake.dirs || exists i :: 1 <= i <= |p| && q == p[..i]
  {
  }

  /** Writing file `name` into directory `dir`: an existing file of that name is overwritten. */
  function WriteFile(lake: Lake, dir: Path, name: string): (r: Lake)
    requires dir in lake.dirs
    ensures r.dirs.Keys == lake.dirs.Keys && r.manifests == lake.manifests
    ensures name in r.dirs[dir]
  {
    lake.(dirs := lake.dirs[dir := if name in lake.dirs[dir] then lake.dirs[dir] else lake.dirs[dir] + [name]])
  }

  /** The written directory gains the file and no other directory changes. */
  lemma WriteFileEffect(lake: Lake, dir: Path, name: string)
    requires dir in lake.dirs
    ensures forall f :: f in WriteFile(lake, dir, name).dirs[dir] <==> f in lake.dirs[dir] || f == name
    ensures forall q :: q in lake.dirs && q != dir ==> WriteFile(lake, dir, name).dirs[q] == lake.dirs[q]
  {
  }

  /** The file name of a feed directory's manifest. */
  const ManifestName := "_metadata.json"

  /** `dir.glob("*")`: the files of `dir`, its manifest when it has one, and its subdirectories. */
  function Entries(lake: Lake, dir: Path): set<string>
    requires dir in lake.dirs
  {
    (set f | f in lake.dirs[dir]) + (if dir in lake.manifests then {ManifestName} else {}) + Children(lake, dir)
  }

  /** The names of `files` that are not in `gone`, in their order. */
  function Without(files: seq<string>, gone: set<string>): (r: seq<string>)
    ensures forall f :: f in r <==> f in files && f !in gone
    decreases |files|
  {
    if files == [] then [] else (if files[0] in gone then [] else [files[0]]) + Without(files[1..], gone)
  }

  /** Removing two sets of names one after the other removes their union. */
  lemma {:induction false} WithoutTwice(files: seq<string>, a: set<string>, b: set<string>)
    ensures Without(Without(files, a), b) == Without(files, a + b)
    decreases |files|
  {
    if files != [] {
      WithoutTwice(files[1..], a, b);
      var w := Without(files, a);
      if files[0] !in a {
        assert w == [files[0]] + Without(files[1..], a);
        assert w[0] == files[0] && w[1..] == Without(files[1..], a);
        if files[0] in b {
          assert Without(w, b) == Without(files[1..], a + b);
        } else {
          assert Without(w, b) == [files[0]] + Without(files[1..], a + b);
        }
      } else {
        assert w == Without(files[1..], a);
        assert Without(files, a + b) == Without(files[1..], a + b);
      }
    }
  }

  /** Removing no name keeps every name. */
  lemma {:induction false} WithoutNothing(files: seq<string>)
    ensures Without(files, {}) == files
    decreases |files|
  {
    if files != [] {
      WithoutNothing(files[1..]);
      assert files == [files[0]] + files[1..];
    }
  }

  /**
   * `file.unlink()` for each of the entries `gone` of `dir`: the files and
   * the manifest of those names disappear, while subdirectories, which
   * `unlink` does not remove, and every other directory stay.
   */
  function Unlink(lake: Lake, dir: Path, gone: set<string>): (r: Lake)
    requires dir in lake.dirs
    ensures r.dirs.Keys == lake.dirs.Keys
  {
    Lake(lake.dirs[dir := Without(lake.dirs[dir], gone)],
         if ManifestName in gone then lake.manifests - {dir} else lake.manifests)
  }

  /**
   * After unlinking, the directory lists exactly its files not unlinked,
   * only its own manifest can be gone, and every other directory and
   * manifest is as it was.
   */
  lemma UnlinkEffect(lake: Lake, dir: Path, gone: set<string>)
    requires dir in lake.dirs
    ensures forall q :: q in lake.dirs && q != dir ==> Unlink(lake, dir, gone).dirs[q] == lake.dirs[q]
    ensures forall f :: f in Unlink(lake, dir, gone).dirs[dir] <==> f in lake.dirs[dir] && f !in gone
    ensures forall q :: q in Unlink(lake, dir, gone).manifests <==> q in lake.manifests && !(q == dir && ManifestName in gone)
    ensures forall q :: q in Unlink(lake, dir, gone).manifests ==> Unlink(lake, dir, gone).manifests[q] == lake.manifests[q]
  {
  }

  /** Unlinking no entry changes nothing. */
  lemma UnlinkNothing(lake: Lake, dir: Path)
    requires dir in lake.dirs
    ensures Unlink(lake, dir, {}) == lake
  {
    WithoutNothing(lake.dirs[dir]);
    assert Unlink(lake, dir, {}).dirs == lake.dirs;
  }

  /** Unlinking entries one batch after another unlinks all of them. */
  lemma UnlinkTwice(lake: Lake, dir: Path, a: set<string>, b: set<string>)
    requires dir in lake.dirs
    ensures Unlink(Unlink(lake, dir, a), dir, b) == Unlink(lake, dir, a + b)
  {
    WithoutTwice(lake.dirs[dir], a, b);
    var l := Unlink(Unlink(lake, dir, a), dir, b);
    assert l.dirs == Unlink(lake, dir, a + b).dirs;
    assert l.manifests == Unlink(lake, dir, a + b).manifests;
  }

  /** Unlinking entries leaves every directory's subdirectories as they were. */
  lemma UnlinkKeepsChildren(lake: Lake, dir: Path, gone: set<string>, p: Path)
    requires dir in lake.dirs
    ensures Children(Unlink(lake, dir, gone), p) == Children(lake, p)
  {
  }

  /** `rmdir` after unlinking leaves what `rmtree` of the directory would. */
  lemma PruneAfterUnlink(lake: Lake, dir: Path, gone: set<string>)
    requires dir in lake.dirs
    ensures Prune(Unlink(lake, dir, gone), {dir}) == Prune(lake, {dir})
  {
    var l := Unlink(lake, dir, gone);
    assert Under(dir, dir);
    assert Prune(l, {dir}).dirs == Prune(lake, {dir}).dirs;
    assert Prune(l, {dir}).manifests == Prune(lake, {dir}).manifests;
  }

  /** Removing subtrees one after the other removes all of them. */
  lemma PruneTwice(lake: Lake, s: set<Path>, t: set<Path>)
    ensures Prune(Prune(lake, s), t) == Prune(lake, s + t)
  {
    var a := Prune(Prune(lake, s), t);
    var b := Prune(lake, s + t);
    forall q, r | r in s + t && Under(q, r) ensures Covered(q, s) || Covered(q, t) {
      if r in s { assert Covered(q, s); } else { assert Covered(q, t); }
    }
    assert a.dirs == b.dirs;
    assert a.manifests == b.manifests;
  }

  /** Two distinct roots of the same depth have disjoint subtrees. */
  lemma SameDepthDisjoint(q: Path, r: Path, p: Path)
    requires |r| == |p| && Under(q, r) && Under(q, p)
    ensures r == p
  {
    assert r == q[..|r|];
  }

  /**
   * Removing subtrees of other roots of the same depth as `p` leaves the
   * Parquet files under `p` as they were.
   */
  lemma PruneKeepsOthers(lake: Lake, s: set<Path>, p: Path)
    requires forall r :: r in s ==> |r| == |p| && r != p
    ensures ParquetFilesIn(Prune(lake, s), {p}) == ParquetFilesIn(lake, {p})
  {
    forall q, r | Under(q, p) && r in s ensures !Under(q, r) {
      assert q[..|r|] == p;
    }
    forall x | x in ParquetFilesIn(lake, {p}) ensures x in ParquetFilesIn(Prune(lake, s), {p}) {
      assert Under(x.0, p);
    }
  }

  /** The Parquet files under one more root of the same depth add up. */
  lemma ParquetFilesAddUp(lake: Lake, s: set<Path>, p: Path)
    requires forall r :: r in s ==> |r| == |p| && r != p
    ensures ParquetFilesIn(lake, s + {p}) == ParquetFilesIn(lake, s) + ParquetFilesIn(lake, {p})
    ensures |ParquetFilesIn(lake, s + {p})| == |ParquetFilesIn(lake, s)| + |ParquetFilesIn(lake, {p})|
  {
    var a := ParquetFilesIn(lake, s);
    var b := ParquetFilesIn(lake, {p});
    forall x | x in ParquetFilesIn(lake, s + {p}) ensures x in a + b {
      var r :| r in s + {p} && Under(x.0, r);
      if r in s { assert Covered(x.0, s); } else { assert Covered(x.0, {p}); }
    }
    forall x | x in a ensures x !in b {
      var r :| r in s && Under(x.0, r);
      if Under(x.0, p) {
        SameDepthDisjoint(x.0, r, p);
      }
    }
    assert a * b == {};
  }

  /**
   * Removing subtrees whose roots lie deeper than the children of `base`, or
   * beside them, leaves the subdirectories of `base` as they were.
   */
  lemma ChildrenAfterPrune(lake: Lake, s: set<Path>, base: Path)
    requires forall r :: r in s ==> |r| > |base| + 1 || (|r| == |base| + 1 && r[..|base|] != base)
    ensures Children(Prune(lake, s), base) == Children(lake, base)
  {
    forall n ensures base + [n] in Prune(lake, s).dirs <==> base + [n] in lake.dirs {
      var p := base + [n];
      forall r | r in s ensures !Under(p, r) {
        if |r| <= |p| {
          assert p[..|r|] == p && p[..|base|] == base;
        }
      }
      ChildrenMembers(lake, base, n);
      ChildrenMembers(Prune(lake, s), base, n);
    }
  }

  /**
   * One `shutil.rmtree(p)` of a sweep that has already removed the subtrees
   * `done` (none of them in a dry run), counting the Parquet files under `p`.
   */
  method DeleteTree(ghost original: Lake, ghost done: set<Path>, current: Lake, p: Path, dryRun: bool)
    returns (after: Lake, count: nat)
    requires current == (if dryRun then original else Prune(original, done))
    requires forall r :: r in done ==> |r| == |p| && r != p
    ensures after == (if dryRun then original else Prune(original, done + {p}))
    ensures count == |ParquetFilesIn(original, {p})|
    ensures |ParquetFilesIn(original, done + {p})| == |ParquetFilesIn(original, done)| + count
  {
    PruneKeepsOthers(original, done, p);
    ParquetFilesAddUp(original, done, p);
    count := |ParquetFilesIn(current, {p})|;
    if dryRun {
      after := current;
    } else {
      PruneTwice(original, done, {p});
      after := Prune(current, {p});
    }
  }

  /** `shutil.rmtree` on each of `roots` in turn (none in a dry run), counting the Parquet files removed. */
  method DeleteTrees(lake: Lake, roots: seq<Path>, dryRun: bool) returns (after: Lake, files: nat)
    requires forall i, j :: 0 <= i < j < |roots| ==> roots[i] != roots[j]
    requires forall i, j :: 0 <= i < |roots| && 0 <= j < |roots| ==> |roots[i]| == |roots[j]|
    ensures after == (if dryRun then lake else Prune(lake, set r | r in roots))
    ensures files == |ParquetFilesIn(lake, set r | r in roots)|
  {
    after := lake;
    files := 0;
    assert roots[..0] == [];
    assert Prune(lake, {}) == lake;
    for i := 0 to |roots|
      invariant after == (if dryRun then lake else Prune(lake, PathSet(roots[..i])))
      invariant files == |ParquetFilesIn(lake, PathSet(roots[..i]))|
    {
      PathSetStep(roots, i);
      var count;
      after, count := DeleteTree(lake, PathSet(roots[..i]), after, roots[i], dryRun);
      files := files + count;
    }
    assert roots[..|roots|] == roots;
  }

  /** The paths listed in `s`. */
  function PathSet(s: seq<Path>): set<Path> {
    set r | r in s
  }

  lemma PathSetStep(s: seq<Path>, i: int)
    requires 0 <= i < |s|
    ensures PathSet(s[..i + 1]) == PathSet(s[..i]) + {s[i]}
  {
    assert s[..i + 1] == s[..i] + [s[i]];
  }

  /** The subdirectories `names` of `base`, as paths. */
  function Subtrees(base: Path, names: seq<string>): set<Path> {
    set n | n in names :: base + [n]
  }

  /** The paths `base/n` for the names `names`, in order. */
  function ChildPaths(base: Path, names: seq<string>): (r: seq<Path>)
    requires forall i, j :: 0 <= i < j < |names| ==> names[i] != names[j]
    ensures |r| == |names|
    ensures forall i :: 0 <= i < |r| ==> r[i] == base + [names[i]]
    ensures forall i, j :: 0 <= i < j < |r| ==> r[i] != r[j]
    ensures forall i, j :: 0 <= i < |r| && 0 <= j < |r| ==> |r[i]| == |r[j]|
    ensures (set q | q in r) == Subtrees(base, names)
  {
    var r := seq(|names|, i requires 0 <= i < |names| => base + [names[i]]);
    assert forall i :: 0 <= i < |r| ==> r[i][|base|] == names[i];
    assert forall n :: n in names ==> base + [n] in r by {
      forall n | n in names ensures base + [n] in r {
        var i :| 0 <= i < |names| && names[i] == n;
        assert r[i] == base + [n];
      }
    }
    r
  }

  /** Removing sibling subtrees of `base/n` leaves `base/n` and its files in place. */
  lemma PruneSparesSibling(lake: Lake, base: Path, deleted: seq<string>, n: string)
    requires base + [n] in lake.dirs && n !in deleted
    ensures base + [n] in Prune(lake, Subtrees(base, deleted)).dirs
    ensures Prune(lake, Subtrees(base, deleted)).dirs[base + [n]] == lake.dirs[base + [n]]
  {
    var p := base + [n];
    forall r | r in Subtrees(base, deleted) ensures !Under(p, r) {
      var d :| d in deleted && r == base + [d];
      assert p[|base|] == n && r[|base|] == d;
    }
  }

  /** Removing sibling subtrees of `base/n` leaves the subdirectories of `base/n` in place. */
  lemma PruneSparesNephews(lake: Lake, base: Path, deleted: seq<string>, n: string)
    requires n !in deleted
    ensures Children(Prune(lake, Subtrees(base, deleted)), base + [n]) == Children(lake, base + [n])
  {
    var p := base + [n];
    forall c ensures p + [c] in Prune(lake, Subtrees(base, deleted)).dirs <==> p + [c] in lake.dirs {
      forall r | r in Subtrees(base, deleted) ensures !Under(p + [c], r) {
        var d :| d in deleted && r == base + [d];
        assert (p + [c])[|base|] == n && r[|base|] == d;
      }
    }
    forall c ensures c in Children(Prune(lake, Subtrees(base, deleted)), p) <==> c in Children(lake, p) {
      ChildrenMembers(lake, p, c);
      ChildrenMembers(Prune(lake, Subtrees(base, deleted)), p, c);
    }
  }

  /** A listing of a set of names holds each of them once. */
  lemma {:induction false} ListingDistinct<T>(names: set<T>, s: seq<T>)
    requires multiset(s) == multiset(names)
    ensures forall i, j :: 0 <= i < j < |s| ==> s[i] != s[j]
    decreases |s|
  {
    if s != [] {
      var t := s[1..];
      assert s == [s[0]] + t;
      assert s[0] in multiset(names);
      assert multiset(names) == multiset(names - {s[0]}) + multiset{s[0]};
      assert multiset(s) == multiset{s[0]} + multiset(t);
      assert multiset(t) == multiset(names) - multiset{s[0]};
      ListingDistinct(names - {s[0]}, t);
      assert multiset(t)[s[0]] == 0;
      forall i, j | 0 <= i < j < |s| ensures s[i] != s[j] {
        assert s[j] == t[j - 1];
        if i > 0 {
          assert s[i] == t[i - 1];
        }
      }
    }
  }

  /** Deleting fewer entries than a listing holds leaves one of them in place. */
  lemma SomeNameKept<T>(names: set<T>, deleted: seq<T>)
    requires multiset(deleted) <= multiset(names) && |deleted| < |names|
    ensures exists k :: k in names && k !in deleted
  {
    var rest := multiset(names) - multiset(deleted);
    assert |multiset(names)| == |names|;
    assert |rest| == |names| - |deleted|;
    var k :| k in rest;
    assert k in names && k !in multiset(deleted);
  }

  /** The entries of a directory listing, in whatever order the file system yields them. */
  method ListDir(names: set<string>) returns (s: seq<string>)
    ensures multiset(s) == multiset(names)
  {
    s := [];
    var rest := names;
    while rest != {}
      invariant multiset(s) + multiset(rest) == multiset(names)
      decreases |rest|
    {
      var n :| n in rest;
      assert multiset(rest) == multiset(rest - {n}) + multiset{n};
      s := s + [n];
      rest := rest - {n};
    }
  }
}
