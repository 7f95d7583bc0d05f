/**
 * Table versions: the `version=vN` directories of a table feed. The next
 * version number, the two orders the cleanups sort versions in, and the two
 * slicing rules by which they choose what to delete.
 */
module Versions {
  import opened Wrappers
  import opened PyText
  import opened Sorting
  import opened Lake
  import opened LakeConfig

  /** The numbers of the names that parse as versions; the others are skipped. */
  function Parsed(names: set<string>): set<int> {
    set n | n in names && VersionNumber(n).Some? :: VersionNumber(n).value
  }

  /** `max(s)`. */
  function MaxOf(s: seq<int>): (m: int)
    requires s != []
    ensures m in s && forall x :: x in s ==> x <= m
  {
    if |s| == 1 then s[0]
    else
      var t := MaxOf(s[1..]);
      assert s == [s[0]] + s[1..];
      if s[0] >= t then s[0] else t
  }

  /**
   * `next` is the version a new snapshot goes to: above every version that
   * parses, and one more than the highest of them, or 1 when none parses.
   */
  predicate IsNextVersion(names: set<string>, next: int) {
    && (forall v :: v in Parsed(names) ==> v < next)
    && (next - 1 in Parsed(names) || (next == 1 && Parsed(names) == {}))
  }

  /** `max(existing_versions, default=0) + 1`, over the names that parse. */
  method NextVersion(names: set<string>) returns (next: int)
    ensures IsNextVersion(names, next)
  {
    var versions: seq<int> := [];
    var rest := names;
    while rest != {}
      invariant rest <= names
      invariant forall v :: v in versions <==> v in Parsed(names - rest)
      decreases |rest|
    {
      var n :| n in rest;
      var parsed := VersionNumber(n);
      if parsed.Some? {
        versions := versions + [parsed.value];
      }
      rest := rest - {n};
    }
    assert names - rest == names;
    next := if versions == [] then 1 else MaxOf(versions) + 1;
  }

  /** The next version is determined by the listing: whatever order it is read in, the result is the same. */
  lemma NextVersionUnique(names: set<string>, a: int, b: int)
    requires IsNextVersion(names, a) && IsNextVersion(names, b)
    ensures a == b
  {
    if Parsed(names) != {} {
      assert a - 1 < b && b - 1 < a;
    }
  }

  /** The next version's directory name is not in the listing yet. */
  lemma NextVersionIsFresh(names: set<string>, next: int)
    requires IsNextVersion(names, next)
    ensures VersionSegment(next) !in names
  {
    VersionSegmentRoundTrip(next);
    assert VersionSegment(next) in names ==> next in Parsed(names);
  }

  // ---------------------------------------------------------------------------
  // Orders

  /** The sort key of a version name that is known to parse. */
  function NumberOf(name: string): int {
    VersionNumber(name).GetOr(0)
  }

  /** `key=lambda p: int(p.name.replace("version=v", ""))`, ascending. */
  predicate NumberLe(a: string, b: string) {
    NumberOf(a) <= NumberOf(b)
  }

  /** Ascending by `(number, name)`, the order of the exporter's `(version_num, version_dir)` tuples. */
  predicate RankLe(a: string, b: string) {
    NumberOf(a) < NumberOf(b) || (NumberOf(a) == NumberOf(b) && StrLe(a, b))
  }

  /** `sort(reverse=True)` on those tuples: descending by `(number, name)`. */
  predicate RankGe(a: string, b: string) {
    RankLe(b, a)
  }

  lemma NumberLeIsPreorder()
    ensures TotalPreorder(NumberLe)
  {
  }

  lemma RankGeIsPreorder()
    ensures TotalPreorder(RankGe)
  {
    forall a, b ensures RankGe(a, b) || RankGe(b, a) {
      StrLtTotal(a, b);
    }
    forall a, b, c | RankGe(a, b) && RankGe(b, c) ensures RankGe(a, c) {
      if StrLt(c, b) && StrLt(b, a) {
        StrLtTransitive(c, b, a);
      }
    }
  }

  /** Distinct names are never tied in the `(number, name)` order. */
  lemma RankIsStrict(a: string, b: string)
    requires a != b
    ensures !(RankLe(a, b) && RankLe(b, a))
  {
    if NumberOf(a) == NumberOf(b) && StrLt(a, b) && StrLt(b, a) {
      StrLtTransitive(a, b, a);
      StrLtIrreflexive(a);
    }
  }

  /** Every name parses as a version. */
  predicate AllParse(names: set<string>) {
    forall n :: n in names ==> VersionNumber(n).Some?
  }

  /**
   * `sorted(base.glob("version=v*"), key=...)`: ValueError as soon as a key
   * does not parse, otherwise every name, ascending by number (ties in
   * listing order).
   */
  method SortAscending(names: set<string>) returns (r: Result<seq<string>>)
    ensures r.Raised? <==> !AllParse(names)
    ensures r.Raised? ==> r.exc == ValueError
    ensures r.Ok? ==> multiset(r.value) == multiset(names) && SortedBy(r.value, NumberLe)
  {
    var listing := ListDir(names);
    for i := 0 to |listing|
      invariant forall j :: 0 <= j < i ==> VersionNumber(listing[j]).Some?
    {
      if VersionNumber(listing[i]).None? {
        assert listing[i] in multiset(names);
        return Raised(ValueError);
      }
    }
    forall n | n in names ensures VersionNumber(n).Some? {
      assert n in multiset(listing);
    }
    NumberLeIsPreorder();
    SortBySorted(listing, NumberLe);
    r := Ok(SortBy(listing, NumberLe));
  }

  // ---------------------------------------------------------------------------
  // What the cleanups delete

  /**
   * `deleted` is `count` of `names`, and none of them comes after (in `le`) a
   * name that is kept.
   */
  ghost predicate DeletesLowest(names: set<string>, deleted: seq<string>, count: nat, le: (string, string) -> bool) {
    && multiset(deleted) <= multiset(names)
    && |deleted| == count
    && forall d, k :: d in deleted && k in names && k !in deleted ==> le(d, k)
  }

  /** Taking a prefix of an ascending listing deletes the lowest entries. */
  lemma PrefixDeletesLowest(names: set<string>, s: seq<string>, c: nat, le: (string, string) -> bool)
    requires multiset(s) == multiset(names) && SortedBy(s, le) && c <= |s|
    ensures DeletesLowest(names, s[..c], c, le)
  {
    assert s == s[..c] + s[c..];
    assert multiset(s) == multiset(s[..c]) + multiset(s[c..]);
    forall d, k | d in s[..c] && k in names && k !in s[..c] ensures le(d, k) {
      assert k in multiset(s);
      var j :| 0 <= j < |s| && s[j] == k;
      var i :| 0 <= i < c && s[..c][i] == d;
      assert forall m :: 0 <= m < c ==> s[..c][m] == s[m];
      assert s[i] == d;
    }
  }

  /** Taking a suffix of a descending listing deletes the lowest entries of the ascending order. */
  lemma SuffixDeletesLowest(names: set<string>, s: seq<string>, c: nat)
    requires multiset(s) == multiset(names) && SortedBy(s, RankGe) && c <= |s|
    ensures DeletesLowest(names, s[c..], |s| - c, RankLe)
  {
    assert s == s[..c] + s[c..];
    assert multiset(s) == multiset(s[..c]) + multiset(s[c..]);
    forall d, k | d in s[c..] && k in names && k !in s[c..] ensures RankLe(d, k) {
      assert k in multiset(s);
      var j :| 0 <= j < |s| && s[j] == k;
      var i :| 0 <= i < |s| - c && s[c..][i] == d;
      assert forall m :: c <= m < |s| ==> s[c..][m - c] == s[m];
      assert s[c + i] == d;
    }
  }

  /**
   * Keeping at least one version never deletes the highest one: it comes
   * after every other name, and something is kept.
   */
  lemma HighestVersionKept(names: set<string>, deleted: seq<string>, top: string, r: int)
    requires top in names && forall k :: k in names && k != top ==> NumberOf(k) < NumberOf(top)
    requires r >= 1 && DeletesLowest(names, deleted, AscendingDropCount(|names|, r), NumberLe)
    ensures top !in deleted
  {
    SomeNameKept(names, deleted);
    var k :| k in names && k !in deleted;
    assert top in deleted ==> NumberLe(top, k) && k != top;
  }

  /**
   * Keeping at least one version in the descending rule never deletes the
   * highest one either.
   */
  lemma HighestVersionKeptDescending(names: set<string>, deleted: seq<string>, top: string, r: int)
    requires top in names && forall k :: k in names && k != top ==> NumberOf(k) < NumberOf(top)
    requires r >= 1 && DeletesLowest(names, deleted, DescendingDropCount(|names|, r), RankLe)
    ensures top !in deleted
  {
    SomeNameKept(names, deleted);
    var k :| k in names && k !in deleted;
    assert top in deleted ==> RankLe(top, k) && k != top;
  }

  /** Python's normalisation of a slice bound `i` for a list of length `n`. */
  function SliceIndex(n: nat, i: int): (k: nat)
    ensures k <= n
  {
    if i < 0 then (if n + i < 0 then 0 else n + i)
    else if i > n then n
    else i
  }

  /**
   * How many of `n` ascending versions `version_dirs[:-r]` deletes, given
   * that it is only applied when there are more than `r`.
   */
  function AscendingDropCount(n: nat, r: int): nat {
    if n > r then SliceIndex(n, -r) else 0
  }

  /** How many of `n` descending versions `versions[r:]` deletes. */
  function DescendingDropCount(n: nat, r: int): nat {
    n - SliceIndex(n, r)
  }

  /**
   * The two slicing rules agree on every retention except 0: `[:-0]` is
   * empty, so the ascending rule keeps everything where the descending one
   * deletes everything. Nine versions with retention 7 lose two.
   */
  lemma DropCountsCompared(n: nat, r: int)
    ensures r > 0 ==> AscendingDropCount(n, r) == DescendingDropCount(n, r) == (if n > r then n - r else 0)
    ensures r < 0 ==> AscendingDropCount(n, r) == DescendingDropCount(n, r) == (if -r < n then -r else n)
    ensures r == 0 ==> AscendingDropCount(n, r) == 0 && DescendingDropCount(n, r) == n
    ensures AscendingDropCount(9, 7) == 2
  {
  }
}
