/**
 * The retention manager (`DataRetentionManager`): for every active policy
 * with automatic deletion it removes the stream partitions older than the
 * policy's age, or the table versions beyond the policy's count, counts the
 * Parquet files removed, and records the deletion in the warehouse. A dry
 * run computes the same counts and changes nothing.
 */
module Retention {
  import opened Wrappers
  import opened PyText
  import opened Calendar
  import opened Sorting
  import opened Lake
  import opened LakeConfig
  import opened Versions

  // ---------------------------------------------------------------------------
  // Stream partitions

  /** `datetime(year, month, day) < cutoff_date`: the date exists and starts before the cutoff. */
  predicate Expired(year: int, month: int, day: int, cutoff: int) {
    Valid(Date.Date(year, month, day)) && Midnight(Date.Date(year, month, day)) < cutoff
  }

  /** The names a listing holds. */
  function Elems(s: seq<string>): set<string> {
    set x | x in s
  }

  /** The paths `pick` selects for the names of `names`, taken together. */
  function UnionOf(names: set<string>, pick: string -> set<Path>): set<Path> {
    set n, p | n in names && p in pick(n) :: p
  }

  /** The paths `pick` selects for the names of the listing `s`, gathered in listing order. */
  function UnionIn(s: seq<string>, pick: string -> set<Path>): (r: set<Path>)
    decreases |s|
  {
    if s == [] then {} else UnionIn(s[..|s| - 1], pick) + pick(s[|s| - 1])
  }

  /** Gathering along a listing selects what the names it lists select. */
  lemma {:induction false} UnionInIsUnionOf(s: seq<string>, pick: string -> set<Path>)
    ensures UnionIn(s, pick) == UnionOf(Elems(s), pick)
    decreases |s|
  {
    if s != [] {
      var t := s[..|s| - 1];
      UnionInIsUnionOf(t, pick);
      assert Elems(s) == Elems(t) + {s[|s| - 1]} by {
        assert s == t + [s[|s| - 1]];
      }
    }
  }

  /** Gathering one more name of a listing. */
  lemma UnionInStep(s: seq<string>, i: nat, pick: string -> set<Path>)
    requires i < |s|
    ensures UnionIn(s[..i + 1], pick) == UnionIn(s[..i], pick) + pick(s[i])
  {
    assert s[..i + 1][..i] == s[..i];
  }

  /** Union regrouped, so that what is removed before and during a turn adds up. */
  lemma UnionRegroup(done: set<Path>, swept: set<Path>, picked: set<Path>)
    ensures (done + swept) + picked == done + (swept + picked)
  {
  }

  /** A listing of a set of names lists exactly those names. */
  lemma ElemsOfListing(names: set<string>, s: seq<string>)
    requires multiset(s) == multiset(names)
    ensures Elems(s) == names
  {
    forall x ensures x in s <==> x in names {
      assert x in s <==> x in multiset(s);
    }
  }

  /** A path of a union is selected by one of its names. */
  lemma UnionOfMember(names: set<string>, pick: string -> set<Path>, r: Path) returns (n: string)
    requires r in UnionOf(names, pick)
    ensures n in names && r in pick(n)
  {
    n :| n in names && r in pick(n);
  }

  /** What is gathered along the first `i` names of a listing, and what that selects. */
  lemma GatheredSoFar(names: set<string>, s: seq<string>, i: nat, pick: string -> set<Path>)
    requires multiset(s) == multiset(names) && i <= |s|
    ensures UnionIn(s[..i], pick) == UnionOf(Elems(s[..i]), pick)
    ensures UnionIn(s[..i], pick) <= UnionOf(names, pick)
    ensures i < |s| ==> s[i] !in Elems(s[..i])
  {
    UnionInIsUnionOf(s[..i], pick);
    ElemsOfListing(names, s);
    ListingDistinct(names, s);
  }

  // The selection, level by level

  /** Under the month directory `md`: the directory of a day name that reads as an expired date. */
  function DayPick(md: Path, year: int, month: int, cutoff: int): string -> set<Path> {
    d => if DateField(d).Some? && Expired(year, month, DateField(d).value, cutoff) then {md + [d]} else {}
  }

  /** Under the year directory `yd`: the expired days below a month name that reads as an integer. */
  function MonthPick(lake: Lake, yd: Path, year: int, cutoff: int): string -> set<Path> {
    m => if DateField(m).Some?
         then UnionOf(Glob(lake, yd + [m], DayPrefix), DayPick(yd + [m], year, DateField(m).value, cutoff))
         else {}
  }

  /** Under the stream directory `base`: the expired days below a year name that reads as an integer. */
  function YearPick(lake: Lake, base: Path, cutoff: int): string -> set<Path> {
    y => if DateField(y).Some?
         then UnionOf(Glob(lake, base + [y], MonthPrefix), MonthPick(lake, base + [y], DateField(y).value, cutoff))
         else {}
  }

  /** Every day partition the sweep of the stream directory `base` selects. */
  function StreamSelected(lake: Lake, base: Path, cutoff: int): set<Path> {
    UnionOf(Glob(lake, base, YearPrefix), YearPick(lake, base, cutoff))
  }

  /** Every name of the listing `s` passes `ok`, checked front to back. */
  predicate AllOk(s: seq<string>, ok: string -> bool)
    decreases |s|
  {
    s == [] || (ok(s[0]) && AllOk(s[1..], ok))
  }

  /** A listing passes exactly when every name it lists does. */
  lemma {:induction false} AllOkIff(names: set<string>, s: seq<string>, ok: string -> bool)
    requires multiset(s) == multiset(names)
    ensures AllOk(s, ok) <==> forall n :: n in names ==> ok(n)
    decreases |s|
  {
    if s == [] {
      assert forall n :: n in names ==> n in multiset(names);
    } else {
      var t := s[1..];
      var rest := names - {s[0]};
      assert s == [s[0]] + t;
      assert s[0] in multiset(names);
      assert multiset(s) == multiset{s[0]} + multiset(t);
      assert multiset(names) == multiset(rest) + multiset{s[0]};
      assert multiset(t) == multiset(names) - multiset{s[0]};
      assert multiset(t) == multiset(rest);
      AllOkIff(rest, t, ok);
    }
  }

  /** The range of a C `int`: `datetime(year, month, day)` converts each argument to one before anything else. */
  const CIntMin := -0x8000_0000
  const CIntMax := 0x7fff_ffff

  /** `x` converts to a C `int`; otherwise `datetime` raises OverflowError, which the day loop does not catch. */
  predicate FitsCInt(x: int) {
    CIntMin <= x <= CIntMax
  }

  /**
   * A date that can expire has all three numbers within a C int, so the
   * OverflowError of a day's turn only stops the sweep at a day it would
   * have kept.
   */
  lemma ExpiredFits(year: int, month: int, day: int, cutoff: int)
    requires Expired(year, month, day, cutoff)
    ensures FitsCInt(year) && FitsCInt(month) && FitsCInt(day)
  {
  }

  /**
   * `int(day_dir.name.split("=")[1])` succeeds and `datetime(year, month, day)`
   * accepts the three numbers as C ints, so the day's turn does not raise
   * (an invalid date is still skipped).
   */
  function DayReads(year: int, month: int): string -> bool {
    d => DateField(d).Some? && FitsCInt(year) && FitsCInt(month) && FitsCInt(DateField(d).value)
  }

  /** Every `day=*` name among `names` passes its turn under a year read as `year` and a month read as `month`. */
  predicate DaysParse(names: set<string>, year: int, month: int) {
    forall d :: d in names ==> DayReads(year, month)(d)
  }

  /** A `month=*` name under `yd` reads as an integer and every day below it passes its turn. */
  function MonthReads(lake: Lake, yd: Path, year: int): string -> bool {
    m => DateField(m).Some? && DaysParse(Glob(lake, yd + [m], DayPrefix), year, DateField(m).value)
  }

  predicate MonthsParse(lake: Lake, yd: Path, year: int, names: set<string>) {
    forall m :: m in names ==> MonthReads(lake, yd, year)(m)
  }

  /** A `year=*` name under `base` reads as an integer and every month and day below it passes its turn. */
  function YearReads(lake: Lake, base: Path): string -> bool {
    y => DateField(y).Some? && MonthsParse(lake, base + [y], DateField(y).value, Glob(lake, base + [y], MonthPrefix))
  }

  /** Every name the sweep of `base` reads is an integer and every day's numbers fit `datetime`, so that the sweep does not raise. */
  predicate StreamParses(lake: Lake, base: Path) {
    forall y :: y in Glob(lake, base, YearPrefix) ==> YearReads(lake, base)(y)
  }

  /** The directory selected for a day name is that day's directory below `md`, and its date is expired. */
  lemma DayPickMember(md: Path, year: int, month: int, cutoff: int, d: string, r: Path)
    requires r in DayPick(md, year, month, cutoff)(d)
    ensures r == md + [d] && DateField(d).Some? && Expired(year, month, DateField(d).value, cutoff)
  {
  }

  /** A day directory selected below a month name lies two levels below `yd`, under that month. */
  lemma MonthPickShape(lake: Lake, yd: Path, year: int, cutoff: int, m: string, r: Path)
    requires r in MonthPick(lake, yd, year, cutoff)(m)
    ensures |r| == |yd| + 2 && r[..|yd| + 1] == yd + [m]
  {
    var d := UnionOfMember(Glob(lake, yd + [m], DayPrefix), DayPick(yd + [m], year, DateField(m).value, cutoff), r);
    assert r == yd + [m] + [d];
  }

  /** A day directory selected below a year name lies three levels below `base`, under that year. */
  lemma YearPickShape(lake: Lake, base: Path, cutoff: int, y: string, r: Path)
    requires r in YearPick(lake, base, cutoff)(y)
    ensures |r| == |base| + 3 && r[..|base| + 1] == base + [y]
  {
    var yd := base + [y];
    assert DateField(y).Some? && r in UnionOf(Glob(lake, yd, MonthPrefix), MonthPick(lake, yd, DateField(y).value, cutoff));
    var m := UnionOfMember(Glob(lake, yd, MonthPrefix), MonthPick(lake, yd, DateField(y).value, cutoff), r);
    MonthPickShape(lake, yd, DateField(y).value, cutoff, m, r);
    PrefixOfPrefix(r, yd, m);
  }

  lemma PrefixOfPrefix(r: Path, yd: Path, m: string)
    requires |r| > |yd| && r[..|yd| + 1] == yd + [m]
    ensures r[..|yd|] == yd
  {
    assert r[..|yd|] == r[..|yd| + 1][..|yd|];
  }

  // The sweep, level by level

  /** The day directory about to be removed is not among those removed before it. */
  lemma NextDayIsNew(names: set<string>, s: seq<string>, i: nat, md: Path, year: int, month: int, cutoff: int, done: set<Path>)
    requires multiset(s) == multiset(names) && i < |s|
    requires forall r :: r in done ==> |r| == |md| + 1 && r[..|md|] != md
    ensures forall r :: r in done + UnionIn(s[..i], DayPick(md, year, month, cutoff)) ==> |r| == |md| + 1 && r != md + [s[i]]
  {
    GatheredSoFar(names, s, i, DayPick(md, year, month, cutoff));
    forall r | r in done + UnionIn(s[..i], DayPick(md, year, month, cutoff)) ensures |r| == |md| + 1 && r != md + [s[i]] {
      if r in done {
        assert (md + [s[i]])[..|md|] == md;
      } else {
        var d :| d in Elems(s[..i]) && r in DayPick(md, year, month, cutoff)(d);
      }
    }
  }

  /** Gathering along a whole listing selects what its names select. */
  lemma GatheredAll(names: set<string>, s: seq<string>, pick: string -> set<Path>)
    requires multiset(s) == multiset(names)
    ensures UnionIn(s, pick) == UnionOf(names, pick)
  {
    UnionInIsUnionOf(s, pick);
    ElemsOfListing(names, s);
  }

  /**
   * One day directory of the month loop: its name read (a ValueError when
   * it is not an integer), the date built (an OverflowError when a number
   * does not fit a C int), then the directory removed (or only counted, in
   * a dry run) when the date exists and is expired.
   */
  method SweepDay(lake: Lake, current: Lake, ghost gone: set<Path>, md: Path, d: string,
                  year: int, month: int, cutoff: int, dryRun: bool)
    returns (after: Lake, count: nat, ghost picked: set<Path>, ghost gone': set<Path>, raised: Option<Exception>)
    requires current == (if dryRun then lake else Prune(lake, gone))
    requires forall r :: r in gone ==> |r| == |md| + 1 && r != md + [d]
    ensures raised.None? <==> DayReads(year, month)(d)
    ensures raised.Some? ==> raised == Some(if DateField(d).None? then ValueError else OverflowError) && picked == {}
    ensures raised.None? ==> picked == DayPick(md, year, month, cutoff)(d)
    ensures gone' == gone + picked
    ensures after == (if dryRun then lake else Prune(lake, gone'))
    ensures |ParquetFilesIn(lake, gone')| == |ParquetFilesIn(lake, gone)| + count
  {
    var day := DateField(d);
    if day.None? || !(FitsCInt(year) && FitsCInt(month) && FitsCInt(day.value)) {
      // the name is read first, so a ValueError comes before any OverflowError
      assert gone + {} == gone;
      return current, 0, {}, gone, Some(if day.None? then ValueError else OverflowError);
    }
    raised := None;
    if Expired(year, month, day.value, cutoff) {
      after, count := DeleteTree(lake, gone, current, md + [d], dryRun);
      picked := {md + [d]};
    } else {
      after, count, picked := current, 0, {};
      assert gone + {} == gone;
    }
    gone' := gone + picked;
  }

  /**
   * One turn of the day loop of `SweepDays`, at position `i` of the listing
   * of `days`.
   */
  method DayTurn(days: set<string>, listing: seq<string>, i: nat, lake: Lake, current: Lake,
                 ghost done: set<Path>, ghost swept: set<Path>, ghost gone: set<Path>,
                 md: Path, year: int, month: int, cutoff: int, dryRun: bool)
    returns (after: Lake, count: nat, ghost swept': set<Path>, ghost gone': set<Path>, raised: Option<Exception>)
    requires multiset(listing) == multiset(days) && i < |listing|
    requires forall r :: r in done ==> |r| == |md| + 1 && r[..|md|] != md
    requires swept == UnionIn(listing[..i], DayPick(md, year, month, cutoff)) && gone == done + swept
    requires current == (if dryRun then lake else Prune(lake, gone))
    ensures raised.None? <==> DayReads(year, month)(listing[i])
    ensures raised.Some? ==> raised == Some(if DateField(listing[i]).None? then ValueError else OverflowError)
                             && swept' <= UnionOf(days, DayPick(md, year, month, cutoff))
    ensures raised.None? ==> swept' == UnionIn(listing[..i + 1], DayPick(md, year, month, cutoff))
    ensures gone' == done + swept'
    ensures after == (if dryRun then lake else Prune(lake, gone'))
    ensures |ParquetFilesIn(lake, gone')| == |ParquetFilesIn(lake, gone)| + count
  {
    ghost var pick := DayPick(md, year, month, cutoff);
    UnionInStep(listing, i, pick);
    assert forall r :: r in gone ==> |r| == |md| + 1 && r != md + [listing[i]] by {
      NextDayIsNew(days, listing, i, md, year, month, cutoff, done);
    }
    ghost var picked;
    after, count, picked, gone', raised := SweepDay(lake, current, gone, md, listing[i], year, month, cutoff, dryRun);
    UnionRegroup(done, swept, picked);
    swept' := swept + picked;
    if raised.Some? {
      GatheredSoFar(days, listing, i + 1, pick);
    }
  }

  /**
   * The `for day_dir in month_dir.glob("day=*")` loop over the names `days`
   * of the month directory `md`, after the sweep has removed the subtrees
   * `done` (none in a dry run); `gone` is what has been removed after it.
   * An invalid date is skipped.
   */
  method SweepDays(days: set<string>, lake: Lake, current: Lake, ghost done: set<Path>, md: Path,
                   year: int, month: int, cutoff: int, dryRun: bool)
    returns (after: Lake, files: nat, ghost swept: set<Path>, ghost gone: set<Path>, raised: Option<Exception>)
    requires current == (if dryRun then lake else Prune(lake, done))
    requires forall r :: r in done ==> |r| == |md| + 1 && r[..|md|] != md
    ensures raised.None? <==> DaysParse(days, year, month)
    ensures raised.Some? ==> raised.value in {ValueError, OverflowError}
    ensures swept <= UnionOf(days, DayPick(md, year, month, cutoff))
    ensures raised.None? ==> swept == UnionOf(days, DayPick(md, year, month, cutoff))
    ensures gone == done + swept
    ensures after == (if dryRun then lake else Prune(lake, gone))
    ensures |ParquetFilesIn(lake, gone)| == |ParquetFilesIn(lake, done)| + files
  {
    var listing := ListDir(days);
    AllOkIff(days, listing, DayReads(year, month));
    after, files, swept, gone := current, 0, {}, done;
    for i := 0 to |listing|
      invariant swept == UnionIn(listing[..i], DayPick(md, year, month, cutoff))
      invariant gone == done + swept
      invariant AllOk(listing, DayReads(year, month)) == AllOk(listing[i..], DayReads(year, month))
      invariant after == (if dryRun then lake else Prune(lake, gone))
      invariant |ParquetFilesIn(lake, gone)| == |ParquetFilesIn(lake, done)| + files
    {
      assert listing[i..][1..] == listing[i + 1..];
      var count, err;
      after, count, swept, gone, err := DayTurn(days, listing, i, lake, after, done, swept, gone, md, year, month, cutoff, dryRun);
      files := files + count;
      if err.Some? {
        return after, files, swept, gone, err;
      }
    }
    assert listing[..|listing|] == listing;
    GatheredAll(days, listing, DayPick(md, year, month, cutoff));
    raised := None;
  }

  /** The subtrees already removed lie two levels below `yd`, none of them under the month directory `m` about to be swept. */
  lemma NextMonthIsNew(months: set<string>, s: seq<string>, i: nat, lake: Lake, yd: Path, year: int, cutoff: int,
                       done: set<Path>)
    requires multiset(s) == multiset(months) && i < |s|
    requires forall r :: r in done ==> |r| == |yd| + 2 && r[..|yd|] != yd
    ensures forall r :: r in done + UnionIn(s[..i], MonthPick(lake, yd, year, cutoff)) ==>
                          |r| == |yd| + 2 && r[..|yd| + 1] != yd + [s[i]]
  {
    var pick := MonthPick(lake, yd, year, cutoff);
    GatheredSoFar(months, s, i, pick);
    forall r | r in done + UnionIn(s[..i], pick) ensures |r| == |yd| + 2 && r[..|yd| + 1] != yd + [s[i]] {
      if r in done {
        assert r[..|yd| + 1][..|yd|] == r[..|yd|];
        assert (yd + [s[i]])[..|yd|] == yd;
      } else {
        var m :| m in Elems(s[..i]) && r in pick(m);
        MonthPickShape(lake, yd, year, cutoff, m, r);
        assert (yd + [m])[|yd|] == m;
      }
    }
  }

  /**
   * One month directory: its name read (a ValueError when it is not an
   * integer), then its `day=*` directories swept (a ValueError or an
   * OverflowError from one of them stops it).
   */
  method SweepMonth(lake: Lake, current: Lake, ghost gone: set<Path>, yd: Path, m: string,
                    year: int, cutoff: int, dryRun: bool)
    returns (after: Lake, count: nat, ghost picked: set<Path>, ghost gone': set<Path>, raised: Option<Exception>)
    requires current == (if dryRun then lake else Prune(lake, gone))
    requires forall r :: r in gone ==> |r| == |yd| + 2 && r[..|yd| + 1] != yd + [m]
    ensures raised.None? <==> MonthReads(lake, yd, year)(m)
    ensures raised.Some? ==> raised.value in {ValueError, OverflowError}
    ensures DateField(m).None? ==> raised == Some(ValueError)
    ensures picked <= MonthPick(lake, yd, year, cutoff)(m)
    ensures raised.None? ==> picked == MonthPick(lake, yd, year, cutoff)(m)
    ensures gone' == gone + picked
    ensures after == (if dryRun then lake else Prune(lake, gone'))
    ensures |ParquetFilesIn(lake, gone')| == |ParquetFilesIn(lake, gone)| + count
  {
    var month := DateField(m);
    if month.None? {
      assert gone + {} == gone;
      return current, 0, {}, gone, Some(ValueError);
    }
    var md := yd + [m];
    after, count, picked, gone', raised := SweepDays(Glob(lake, md, DayPrefix), lake, current, gone, md, year, month.value, cutoff, dryRun);
  }

  /**
   * One turn of the month loop of `SweepMonths`, at position `i` of the
   * listing of `months`: what has been swept so far is what the names
   * before `i` select.
   */
  method MonthTurn(months: set<string>, listing: seq<string>, i: nat, lake: Lake, current: Lake,
                   ghost done: set<Path>, ghost swept: set<Path>, ghost gone: set<Path>,
                   yd: Path, year: int, cutoff: int, dryRun: bool)
    returns (after: Lake, count: nat, ghost swept': set<Path>, ghost gone': set<Path>, raised: Option<Exception>)
    requires multiset(listing) == multiset(months) && i < |listing|
    requires forall r :: r in done ==> |r| == |yd| + 2 && r[..|yd|] != yd
    requires swept == UnionIn(listing[..i], MonthPick(lake, yd, year, cutoff)) && gone == done + swept
    requires current == (if dryRun then lake else Prune(lake, gone))
    ensures raised.None? <==> MonthReads(lake, yd, year)(listing[i])
    ensures raised.Some? ==> raised.value in {ValueError, OverflowError} && swept' <= UnionOf(months, MonthPick(lake, yd, year, cutoff))
    ensures raised.None? ==> swept' == UnionIn(listing[..i + 1], MonthPick(lake, yd, year, cutoff))
    ensures gone' == done + swept'
    ensures after == (if dryRun then lake else Prune(lake, gone'))
    ensures |ParquetFilesIn(lake, gone')| == |ParquetFilesIn(lake, gone)| + count
  {
    ghost var pick := MonthPick(lake, yd, year, cutoff);
    UnionInStep(listing, i, pick);
    assert forall r :: r in gone ==> |r| == |yd| + 2 && r[..|yd| + 1] != yd + [listing[i]] by {
      NextMonthIsNew(months, listing, i, lake, yd, year, cutoff, done);
    }
    ghost var picked;
    after, count, picked, gone', raised := SweepMonth(lake, current, gone, yd, listing[i], year, cutoff, dryRun);
    UnionRegroup(done, swept, picked);
    swept' := swept + picked;
    if raised.Some? {
      GatheredSoFar(months, listing, i + 1, pick);
    }
  }

  /**
   * The `for month_dir in year_dir.glob("month=*")` loop over the names
   * `months` of the year directory `yd`, after the subtrees `done`.
   */
  method SweepMonths(months: set<string>, lake: Lake, current: Lake, ghost done: set<Path>, yd: Path,
                     year: int, cutoff: int, dryRun: bool)
    returns (after: Lake, files: nat, ghost swept: set<Path>, ghost gone: set<Path>, raised: Option<Exception>)
    requires current == (if dryRun then lake else Prune(lake, done))
    requires forall r :: r in done ==> |r| == |yd| + 2 && r[..|yd|] != yd
    ensures raised.None? <==> MonthsParse(lake, yd, year, months)
    ensures raised.Some? ==> raised.value in {ValueError, OverflowError}
    ensures swept <= UnionOf(months, MonthPick(lake, yd, year, cutoff))
    ensures raised.None? ==> swept == UnionOf(months, MonthPick(lake, yd, year, cutoff))
    ensures gone == done + swept
    ensures after == (if dryRun then lake else Prune(lake, gone))
    ensures |ParquetFilesIn(lake, gone)| == |ParquetFilesIn(lake, done)| + files
  {
    var listing := ListDir(months);
    AllOkIff(months, listing, MonthReads(lake, yd, year));
    after, files, swept, gone := current, 0, {}, done;
    for i := 0 to |listing|
      invariant swept == UnionIn(listing[..i], MonthPick(lake, yd, year, cutoff))
      invariant gone == done + swept
      invariant AllOk(listing, MonthReads(lake, yd, year)) == AllOk(listing[i..], MonthReads(lake, yd, year))
      invariant after == (if dryRun then lake else Prune(lake, gone))
      invariant |ParquetFilesIn(lake, gone)| == |ParquetFilesIn(lake, done)| + files
    {
      assert listing[i..][1..] == listing[i + 1..];
      var count, err;
      after, count, swept, gone, err := MonthTurn(months, listing, i, lake, after, done, swept, gone, yd, year, cutoff, dryRun);
      files := files + count;
      if err.Some? {
        return after, files, swept, gone, err;
      }
    }
    assert listing[..|listing|] == listing;
    GatheredAll(months, listing, MonthPick(lake, yd, year, cutoff));
    raised := None;
  }

  /** The subtrees already removed lie three levels below `base`, none of them under the year directory `y` about to be swept. */
  lemma NextYearIsNew(years: set<string>, s: seq<string>, i: nat, lake: Lake, base: Path, cutoff: int)
    requires multiset(s) == multiset(years) && i < |s|
    ensures forall r :: r in UnionIn(s[..i], YearPick(lake, base, cutoff)) ==>
                          |r| == |base| + 3 && r[..|base| + 1] != base + [s[i]]
  {
    var pick := YearPick(lake, base, cutoff);
    GatheredSoFar(years, s, i, pick);
    forall r | r in UnionIn(s[..i], pick) ensures |r| == |base| + 3 && r[..|base| + 1] != base + [s[i]] {
      var y :| y in Elems(s[..i]) && r in pick(y);
      YearPickShape(lake, base, cutoff, y, r);
      assert (base + [y])[|base|] == y;
    }
  }

  /**
   * One year directory: its name read (a ValueError when it is not an
   * integer), then its `month=*` directories swept (a ValueError or an
   * OverflowError from below stops it).
   */
  method SweepYear(lake: Lake, current: Lake, ghost gone: set<Path>, base: Path, y: string,
                   cutoff: int, dryRun: bool)
    returns (after: Lake, count: nat, ghost picked: set<Path>, ghost gone': set<Path>, raised: Option<Exception>)
    requires current == (if dryRun then lake else Prune(lake, gone))
    requires forall r :: r in gone ==> |r| == |base| + 3 && r[..|base| + 1] != base + [y]
    ensures raised.None? <==> YearReads(lake, base)(y)
    ensures raised.Some? ==> raised.value in {ValueError, OverflowError}
    ensures DateField(y).None? ==> raised == Some(ValueError)
    ensures picked <= YearPick(lake, base, cutoff)(y)
    ensures raised.None? ==> picked == YearPick(lake, base, cutoff)(y)
    ensures gone' == gone + picked
    ensures after == (if dryRun then lake else Prune(lake, gone'))
    ensures |ParquetFilesIn(lake, gone')| == |ParquetFilesIn(lake, gone)| + count
  {
    var year := DateField(y);
    if year.None? {
      assert gone + {} == gone;
      return current, 0, {}, gone, Some(ValueError);
    }
    var yd := base + [y];
    after, count, picked, gone', raised := SweepMonths(Glob(lake, yd, MonthPrefix), lake, current, gone, yd, year.value, cutoff, dryRun);
  }

  /**
   * One turn of the year loop of `SweepYears`, at position `i` of the
   * listing of `years`.
   */
  method YearTurn(years: set<string>, listing: seq<string>, i: nat, lake: Lake, current: Lake,
                  ghost swept: set<Path>, base: Path, cutoff: int, dryRun: bool)
    returns (after: Lake, count: nat, ghost swept': set<Path>, raised: Option<Exception>)
    requires multiset(listing) == multiset(years) && i < |listing|
    requires swept == UnionIn(listing[..i], YearPick(lake, base, cutoff))
    requires current == (if dryRun then lake else Prune(lake, swept))
    ensures raised.None? <==> YearReads(lake, base)(listing[i])
    ensures raised.Some? ==> raised.value in {ValueError, OverflowError} && swept' <= UnionOf(years, YearPick(lake, base, cutoff))
    ensures raised.None? ==> swept' == UnionIn(listing[..i + 1], YearPick(lake, base, cutoff))
    ensures after == (if dryRun then lake else Prune(lake, swept'))
    ensures |ParquetFilesIn(lake, swept')| == |ParquetFilesIn(lake, swept)| + count
  {
    ghost var pick := YearPick(lake, base, cutoff);
    UnionInStep(listing, i, pick);
    NextYearIsNew(years, listing, i, lake, base, cutoff);
    ghost var picked;
    after, count, picked, swept', raised := SweepYear(lake, current, swept, base, listing[i], cutoff, dryRun);
    if raised.Some? {
      GatheredSoFar(years, listing, i + 1, pick);
    }
  }

  /** The `for year_dir in stream_path.glob("year=*")` loop over the names `years` of the stream directory `base`. */
  method SweepYears(years: set<string>, lake: Lake, base: Path, cutoff: int, dryRun: bool)
    returns (after: Lake, files: nat, ghost swept: set<Path>, raised: Option<Exception>)
    ensures raised.None? <==> forall y :: y in years ==> YearReads(lake, base)(y)
    ensures raised.Some? ==> raised.value in {ValueError, OverflowError}
    ensures swept <= UnionOf(years, YearPick(lake, base, cutoff))
    ensures raised.None? ==> swept == UnionOf(years, YearPick(lake, base, cutoff))
    ensures after == (if dryRun then lake else Prune(lake, swept))
    ensures files == |ParquetFilesIn(lake, swept)|
  {
    var listing := ListDir(years);
    AllOkIff(years, listing, YearReads(lake, base));
    after, files, swept := lake, 0, {};
    PruneNothing(lake);
    for i := 0 to |listing|
      invariant swept == UnionIn(listing[..i], YearPick(lake, base, cutoff))
      invariant AllOk(listing, YearReads(lake, base)) == AllOk(listing[i..], YearReads(lake, base))
      invariant after == (if dryRun then lake else Prune(lake, swept))
      invariant files == |ParquetFilesIn(lake, swept)|
    {
      assert listing[i..][1..] == listing[i + 1..];
      var count, err;
      after, count, swept, err := YearTurn(years, listing, i, lake, after, swept, base, cutoff, dryRun);
      files := files + count;
      if err.Some? {
        return after, files, swept, err;
      }
    }
    assert listing[..|listing|] == listing;
    GatheredAll(years, listing, YearPick(lake, base, cutoff));
    raised := None;
  }

  /** `datetime.now() - timedelta(days=retention_days)`, or None when `datetime` cannot hold it (an OverflowError). */
  function Cutoff(now: int, retentionDays: int): (r: Option<int>)
    ensures r.Some? <==> 0 <= now - retentionDays * SecondsPerDay <= MaxSeconds
    ensures r.Some? ==> r.value == now - retentionDays * SecondsPerDay
  {
    var c := now - retentionDays * SecondsPerDay;
    if 0 <= c <= MaxSeconds then Some(c) else None
  }

  /**
   * What `cleanup_stream_data(feed_name, retention_days)` leaves: nothing
   * when the stream directory is missing; a TypeError for a missing age and
   * an OverflowError for an age whose cutoff `datetime` cannot hold; else
   * the sweep, which removes the selected day directories (`swept`) and
   * counts their Parquet files, or raises, after removing part of them,
   * ValueError at a name that is not an integer or OverflowError at a day
   * whose year, month or day does not fit a C int.
   */
  ghost predicate StreamCleaned(lake: Lake, name: string, retentionDays: Option<int>, now: int, dryRun: bool,
                                after: Lake, files: nat, swept: set<Path>, raised: Option<Exception>) {
    var base := StreamPath(name);
    if base !in lake.dirs then after == lake && files == 0 && swept == {} && raised == None
    else if retentionDays.None? then after == lake && files == 0 && swept == {} && raised == Some(TypeError)
    else if Cutoff(now, retentionDays.value).None? then after == lake && files == 0 && swept == {} && raised == Some(OverflowError)
    else
      var cutoff := Cutoff(now, retentionDays.value).value;
      && (raised.None? <==> StreamParses(lake, base))
      && (raised.Some? ==> raised.value in {ValueError, OverflowError})
      && swept <= StreamSelected(lake, base, cutoff)
      && (raised.None? ==> swept == StreamSelected(lake, base, cutoff))
      && after == (if dryRun then lake else Prune(lake, swept))
      && files == |ParquetFilesIn(lake, swept)|
  }

  /** `cleanup_stream_data`, `now` being the clock reading in seconds since 0001-01-01. */
  method CleanupStreamData(lake: Lake, name: string, retentionDays: Option<int>, now: int, dryRun: bool)
    returns (after: Lake, files: nat, ghost swept: set<Path>, raised: Option<Exception>)
    ensures StreamCleaned(lake, name, retentionDays, now, dryRun, after, files, swept, raised)
  {
    var base := StreamPath(name);
    if base !in lake.dirs {
      return lake, 0, {}, None;
    }
    if retentionDays.None? {
      return lake, 0, {}, Some(TypeError);
    }
    var cutoff := Cutoff(now, retentionDays.value);
    if cutoff.None? {
      return lake, 0, {}, Some(OverflowError);
    }
    after, files, swept, raised := SweepYears(Glob(lake, base, YearPrefix), lake, base, cutoff.value, dryRun);
  }

  /** The path of the day `d` of the month `m` of the year `y` below `base`, segment by segment. */
  lemma DayPathSegments(base: Path, y: string, m: string, d: string)
    ensures var q := base + [y] + [m] + [d];
            && q == base + [y, m, d] && |q| == |base| + 3 && q[..|base|] == base
            && q[|base|] == y && q[|base| + 1] == m && q[|base| + 2] == d
  {
    assert base + [y] + [m] + [d] == base + [y, m, d];
  }

  /** A name a glob lists is a subdirectory with the glob's prefix. */
  lemma InGlob(lake: Lake, base: Path, prefix: string, n: string)
    requires n in Glob(lake, base, prefix)
    ensures base + [n] in lake.dirs && StartsWith(n, prefix)
  {
    ChildrenMembers(lake, base, n);
  }

  /** A path selected below the month name `m` is selected below one of its day names. */
  lemma MonthPickMember(lake: Lake, yd: Path, year: int, cutoff: int, m: string, r: Path) returns (d: string)
    requires r in MonthPick(lake, yd, year, cutoff)(m)
    ensures DateField(m).Some? && d in Glob(lake, yd + [m], DayPrefix)
    ensures r in DayPick(yd + [m], year, DateField(m).value, cutoff)(d)
  {
    d := UnionOfMember(Glob(lake, yd + [m], DayPrefix), DayPick(yd + [m], year, DateField(m).value, cutoff), r);
  }

  /** A path selected below the year name `y` is selected below one of its month names. */
  lemma YearPickMember(lake: Lake, base: Path, cutoff: int, y: string, r: Path) returns (m: string)
    requires r in YearPick(lake, base, cutoff)(y)
    ensures DateField(y).Some? && m in Glob(lake, base + [y], MonthPrefix)
    ensures r in MonthPick(lake, base + [y], DateField(y).value, cutoff)(m)
  {
    m := UnionOfMember(Glob(lake, base + [y], MonthPrefix), MonthPick(lake, base + [y], DateField(y).value, cutoff), r);
  }

  /**
   * Every directory the sweep of `base` selects is an existing `day=*`
   * directory three levels below it, under a `year=*` and a `month=*`
   * directory, and the three numbers its names read as make an existing
   * date that starts before the cutoff.
   */
  lemma SelectedAreExpiredDays(lake: Lake, base: Path, cutoff: int, r: Path)
    requires r in StreamSelected(lake, base, cutoff)
    ensures |r| == |base| + 3 && r[..|base|] == base && r in lake.dirs
    ensures StartsWith(r[|base|], YearPrefix) && StartsWith(r[|base| + 1], MonthPrefix) && StartsWith(r[|base| + 2], DayPrefix)
    ensures DateField(r[|base|]).Some? && DateField(r[|base| + 1]).Some? && DateField(r[|base| + 2]).Some?
    ensures Expired(DateField(r[|base|]).value, DateField(r[|base| + 1]).value, DateField(r[|base| + 2]).value, cutoff)
  {
    var y := UnionOfMember(Glob(lake, base, YearPrefix), YearPick(lake, base, cutoff), r);
    var m := YearPickMember(lake, base, cutoff, y, r);
    var d := MonthPickMember(lake, base + [y], DateField(y).value, cutoff, m, r);
    InGlob(lake, base, YearPrefix, y);
    InGlob(lake, base + [y], MonthPrefix, m);
    InGlob(lake, base + [y] + [m], DayPrefix, d);
    DayPickMember(base + [y] + [m], DateField(y).value, DateField(m).value, cutoff, d, r);
    DayPathSegments(base, y, m, d);
  }

  /** An existing day partition of a date before the cutoff is selected. */
  lemma ExpiredDateSelected(lake: Lake, base: Path, cutoff: int, year: int, month: int, day: int)
    requires Valid(Date.Date(year, month, day)) && Midnight(Date.Date(year, month, day)) < cutoff
    requires base + [YearSegment(year)] in lake.dirs
    requires base + [YearSegment(year), MonthSegment(month)] in lake.dirs
    requires DatePartitionPath(base, year, month, day) in lake.dirs
    ensures DatePartitionPath(base, year, month, day) in StreamSelected(lake, base, cutoff)
  {
    var p := DatePartitionPath(base, year, month, day);
    var y, m, d := YearSegment(year), MonthSegment(month), DaySegment(day);
    DateSegmentsRoundTrip(year, month, day);
    var yd := base + [y];
    var md := yd + [m];
    assert yd + [m] == base + [y, m];
    assert md + [d] == p;
    ChildrenMembers(lake, base, y);
    ChildrenMembers(lake, yd, m);
    ChildrenMembers(lake, md, d);
    assert p in DayPick(md, year, month, cutoff)(d);
    assert p in MonthPick(lake, yd, year, cutoff)(m);
    assert p in YearPick(lake, base, cutoff)(y);
  }

  /**
   * A day partition as the exporter writes it, for an existing date, is
   * selected exactly when that date starts before the cutoff.
   */
  lemma DatePartitionSelected(lake: Lake, base: Path, cutoff: int, year: int, month: int, day: int)
    requires Valid(Date.Date(year, month, day))
    requires base + [YearSegment(year)] in lake.dirs
    requires base + [YearSegment(year), MonthSegment(month)] in lake.dirs
    requires DatePartitionPath(base, year, month, day) in lake.dirs
    ensures DatePartitionPath(base, year, month, day) in StreamSelected(lake, base, cutoff)
            <==> Midnight(Date.Date(year, month, day)) < cutoff
  {
    var p := DatePartitionPath(base, year, month, day);
    if p in StreamSelected(lake, base, cutoff) {
      SelectedAreExpiredDays(lake, base, cutoff, p);
      DateSegmentsRoundTrip(year, month, day);
      assert p[|base|] == YearSegment(year) && p[|base| + 1] == MonthSegment(month) && p[|base| + 2] == DaySegment(day);
    }
    if Midnight(Date.Date(year, month, day)) < cutoff {
      ExpiredDateSelected(lake, base, cutoff, year, month, day);
    }
  }

  /**
   * Whatever part `swept` of the selection a sweep removed, a directory it
   * removed lies in a selected day directory.
   */
  lemma RemovedOnlyExpiredDays(lake: Lake, base: Path, cutoff: int, swept: set<Path>, q: Path)
    requires swept <= StreamSelected(lake, base, cutoff)
    requires q in lake.dirs && q !in Prune(lake, swept).dirs
    ensures |q| >= |base| + 3 && q[..|base| + 3] in swept
  {
    PruneEffect(lake, swept);
    var r :| r in swept && Under(q, r);
    SelectedAreExpiredDays(lake, base, cutoff, r);
  }

  /** Every selected directory lies three levels below `base`. */
  lemma SelectedDepth(lake: Lake, base: Path, cutoff: int)
    ensures forall r :: r in StreamSelected(lake, base, cutoff) ==> |r| == |base| + 3
  {
    forall r | r in StreamSelected(lake, base, cutoff) ensures |r| == |base| + 3 {
      SelectedUnderBase(lake, base, cutoff, r);
    }
  }

  /** Among roots all as deep as `p`, `p` lies in one of their subtrees only when it is one of them. */
  lemma CoveredAtDepth(p: Path, roots: set<Path>)
    requires forall r :: r in roots ==> |r| == |p|
    ensures Covered(p, roots) <==> p in roots
  {
    assert p[..|p|] == p;
    if p in roots {
      assert Under(p, p);
    }
  }

  /**
   * After a complete sweep, an existing day partition of an existing date
   * is gone exactly when its date starts before the cutoff.
   */
  lemma ExpiredDaysGone(lake: Lake, base: Path, cutoff: int, year: int, month: int, day: int)
    requires Valid(Date.Date(year, month, day))
    requires base + [YearSegment(year)] in lake.dirs
    requires base + [YearSegment(year), MonthSegment(month)] in lake.dirs
    requires DatePartitionPath(base, year, month, day) in lake.dirs
    ensures DatePartitionPath(base, year, month, day) !in Prune(lake, StreamSelected(lake, base, cutoff)).dirs
            <==> Midnight(Date.Date(year, month, day)) < cutoff
  {
    var selected := StreamSelected(lake, base, cutoff);
    var p := DatePartitionPath(base, year, month, day);
    DatePartitionSelected(lake, base, cutoff, year, month, day);
    SelectedDepth(lake, base, cutoff);
    CoveredAtDepth(p, selected);
    PruneEffect(lake, selected);
  }

  /** What lies below `r` lies below every ancestor of `r`. */
  lemma UnderChain(q: Path, r: Path, b: Path)
    requires Under(r, b)
    ensures Under(q, r) ==> Under(q, b)
  {
    if Under(q, r) {
      assert q[..|b|] == q[..|r|][..|b|];
    }
  }

  /** A selected directory lies three levels below `base`. */
  lemma SelectedUnderBase(lake: Lake, base: Path, cutoff: int, r: Path)
    requires r in StreamSelected(lake, base, cutoff)
    ensures |r| == |base| + 3 && Under(r, base)
  {
    SelectedAreExpiredDays(lake, base, cutoff, r);
  }

  /** A year or month directory, or a directory outside `base`, lies in no selected subtree. */
  lemma OutsideSelected(lake: Lake, base: Path, cutoff: int, r: Path, q: Path)
    requires r in StreamSelected(lake, base, cutoff)
    requires |q| <= |base| + 2 || !Under(q, base)
    ensures !Under(q, r)
  {
    SelectedUnderBase(lake, base, cutoff, r);
    UnderChain(q, r, base);
  }

  /**
   * Whatever part of the selection a sweep removed, it never removes a
   * year or month directory, even one it has emptied, nor anything outside
   * the stream directory.
   */
  lemma YearAndMonthDirectoriesKept(lake: Lake, base: Path, cutoff: int, swept: set<Path>, q: Path)
    requires swept <= StreamSelected(lake, base, cutoff)
    requires q in lake.dirs && (|q| <= |base| + 2 || !Under(q, base))
    ensures q in Prune(lake, swept).dirs && Prune(lake, swept).dirs[q] == lake.dirs[q]
  {
    forall r | r in swept ensures !Under(q, r) {
      OutsideSelected(lake, base, cutoff, r, q);
    }
    PruneEffect(lake, swept);
  }

  // ---------------------------------------------------------------------------
  // Table versions

  /**
   * What `cleanup_table_data(feed_name, retention_versions)` leaves: nothing
   * when the table directory is missing; a ValueError, before anything is
   * removed, when a `version=v*` name does not read as a number; otherwise,
   * when there are more than `retention` versions, `version_dirs[:-retention]`
   * of the ascending order (`deleted`) removed with their subtrees (none in
   * a dry run) and their Parquet files counted.
   */
  ghost predicate TableCleaned(lake: Lake, name: string, retention: int, dryRun: bool,
                               after: Lake, files: nat, deleted: seq<string>, raised: Option<Exception>) {
    var base := TablePath(name);
    if base !in lake.dirs then after == lake && files == 0 && deleted == [] && raised == None
    else
      var names := Glob(lake, base, VersionPrefix);
      if !AllParse(names) then after == lake && files == 0 && deleted == [] && raised == Some(ValueError)
      else
        && raised == None
        && DeletesLowest(names, deleted, AscendingDropCount(|names|, retention), NumberLe)
        && after == (if dryRun then lake else Prune(lake, Subtrees(base, deleted)))
        && files == |ParquetFilesIn(lake, Subtrees(base, deleted))|
  }

  /** `cleanup_table_data`. */
  method CleanupTableData(lake: Lake, name: string, retention: int, dryRun: bool)
    returns (after: Lake, files: nat, ghost deleted: seq<string>, raised: Option<Exception>)
    ensures TableCleaned(lake, name, retention, dryRun, after, files, deleted, raised)
  {
    var base := TablePath(name);
    if base !in lake.dirs {
      return lake, 0, [], None;
    }
    var names := Glob(lake, base, VersionPrefix);
    var sorted := SortAscending(names);
    if sorted.Raised? {
      return lake, 0, [], Some(sorted.exc);
    }
    var dirs := sorted.value;
    assert |dirs| == |names| by {
      assert |multiset(dirs)| == |multiset(names)|;
    }
    var victims: seq<string> := [];
    if |dirs| > retention {
      victims := dirs[..SliceIndex(|dirs|, -retention)];
    }
    PrefixDeletesLowest(names, dirs, |victims|, NumberLe);
    ListingDistinct(names, dirs);
    after, files := DeleteTrees(lake, ChildPaths(base, victims), dryRun);
    deleted := victims;
    raised := None;
  }

  /**
   * A cleanup that keeps at least one version, and is no dry run, keeps
   * the directory of the highest version with its files.
   */
  lemma TableCleanupKeepsNewest(lake: Lake, name: string, retention: int, after: Lake, files: nat, deleted: seq<string>, top: string)
    requires TableCleaned(lake, name, retention, false, after, files, deleted, None) && TablePath(name) in lake.dirs
    requires retention >= 1 && TablePath(name) + [top] in lake.dirs && top in Glob(lake, TablePath(name), VersionPrefix)
    requires forall k :: k in Glob(lake, TablePath(name), VersionPrefix) && k != top ==> NumberOf(k) < NumberOf(top)
    ensures TablePath(name) + [top] in after.dirs && after.dirs[TablePath(name) + [top]] == lake.dirs[TablePath(name) + [top]]
  {
    var base := TablePath(name);
    var names := Glob(lake, base, VersionPrefix);
    HighestVersionKept(names, deleted, top, retention);
    PruneSparesSibling(lake, base, deleted, top);
  }

  /** With a positive retention, a successful cleanup of `n` versions deletes `n - retention` of them when there are more. */
  lemma TableCleanupCount(lake: Lake, name: string, retention: int, dryRun: bool, after: Lake, files: nat, deleted: seq<string>)
    requires TableCleaned(lake, name, retention, dryRun, after, files, deleted, None) && TablePath(name) in lake.dirs
    requires retention > 0
    ensures var n := |Glob(lake, TablePath(name), VersionPrefix)|;
            |deleted| == (if n > retention then n - retention else 0)
  {
    DropCountsCompared(|Glob(lake, TablePath(name), VersionPrefix)|, retention);
  }

  // ---------------------------------------------------------------------------
  // Policies, the deletion log and the run

  /** A row of `data_retention_policies`; `lastCleanupAt` is a timestamp in seconds. */
  datatype Policy = Policy(policyId: int, feedName: string, feedType: string,
                           retentionDays: Option<int>, retentionVersions: Option<int>,
                           autoDelete: bool, isActive: bool, lastCleanupAt: Option<int>)

  /** `WHERE is_active = TRUE AND auto_delete = TRUE`, taking the rows in table order. */
  function ActivePolicies(rows: seq<Policy>): (r: seq<Policy>)
    ensures |r| <= |rows|
    decreases |rows|
  {
    if rows == [] then []
    else (if rows[0].isActive && rows[0].autoDelete then [rows[0]] else []) + ActivePolicies(rows[1..])
  }

  /** The run takes up exactly the rows that are active and allow automatic deletion. */
  lemma {:induction false} ActivePoliciesMembers(rows: seq<Policy>)
    ensures forall p :: p in ActivePolicies(rows) <==> p in rows && p.isActive && p.autoDelete
    decreases |rows|
  {
    if rows != [] {
      ActivePoliciesMembers(rows[1..]);
      assert rows == [rows[0]] + rows[1..];
    }
  }

  /** One more row taken by the filter's loop. */
  lemma ActivePoliciesStep(rows: seq<Policy>, i: nat, ps: seq<Policy>)
    requires i < |rows| && ActivePolicies(rows) == ps + ActivePolicies(rows[i..])
    ensures ActivePolicies(rows)
            == ps + (if rows[i].isActive && rows[i].autoDelete then [rows[i]] else []) + ActivePolicies(rows[i + 1..])
  {
    ActivePoliciesFrom(rows, i);
    var head := if rows[i].isActive && rows[i].autoDelete then [rows[i]] else [];
    Regroup(ps, head, ActivePolicies(rows[i + 1..]));
  }

  /** Concatenation regrouped, for the filter's and the log's running prefixes. */
  lemma Regroup<T>(a: seq<T>, b: seq<T>, c: seq<T>)
    ensures a + (b + c) == a + b + c
  {
  }

  /** The filter from position `i` on: the row at `i`, if it passes, then the rest. */
  lemma ActivePoliciesFrom(rows: seq<Policy>, i: nat)
    requires i < |rows|
    ensures ActivePolicies(rows[i..])
            == (if rows[i].isActive && rows[i].autoDelete then [rows[i]] else []) + ActivePolicies(rows[i + 1..])
  {
    assert rows[i..][1..] == rows[i + 1..];
  }

  const RetentionDeletion: string := "retention"
  const RetentionNote: string := "Automatic retention cleanup"
  /** The default `user_id` of `log_deletion`. */
  const DefaultUser: int := 1

  /** A row of `data_deletion_log` as `log_deletion` inserts it. */
  datatype Deletion = Deletion(feedName: string, feedType: string, folderPath: Path, deletionType: string,
                               filesDeleted: nat, deletedBy: int, notes: string)

  /** The tables the manager writes, and the number of writes it has attempted so far. */
  datatype Audit = Audit(log: seq<Deletion>, policies: seq<Policy>, attempts: nat)

  function DeletionOf(feedName: string, feedType: string, folder: Path, files: nat): Deletion {
    Deletion(feedName, feedType, folder, RetentionDeletion, files, DefaultUser, RetentionNote)
  }

  /**
   * `log_deletion`: nothing in a dry run; otherwise one INSERT, which the
   * server refuses when the attempt's number is in `rejects` (the error is
   * logged and swallowed).
   */
  function Logged(a: Audit, rejects: set<nat>, dryRun: bool, feedName: string, feedType: string, folder: Path, files: nat): (r: Audit)
    ensures r.policies == a.policies
    ensures |a.log| <= |r.log| <= |a.log| + 1 && r.log[..|a.log|] == a.log
  {
    if dryRun then a
    else if a.attempts in rejects then a.(attempts := a.attempts + 1)
    else Audit(a.log + [DeletionOf(feedName, feedType, folder, files)], a.policies, a.attempts + 1)
  }

  /** `SET last_cleanup_at = CURRENT_TIMESTAMP WHERE policy_id = id`, the server's clock reading `now`. */
  function StampRows(rows: seq<Policy>, id: int, now: int): (r: seq<Policy>)
    ensures |r| == |rows|
    ensures forall i :: 0 <= i < |r| ==> r[i].(lastCleanupAt := rows[i].lastCleanupAt) == rows[i]
    ensures forall i :: 0 <= i < |r| ==> r[i].lastCleanupAt == (if rows[i].policyId == id then Some(now) else rows[i].lastCleanupAt)
  {
    seq(|rows|, i requires 0 <= i < |rows| => if rows[i].policyId == id then rows[i].(lastCleanupAt := Some(now)) else rows[i])
  }

  /** `update_last_cleanup`: nothing in a dry run; otherwise one UPDATE, which the server may refuse. */
  function Stamped(a: Audit, rejects: set<nat>, dryRun: bool, id: int, now: int): (r: Audit)
    ensures r.log == a.log
  {
    if dryRun then a
    else if a.attempts in rejects then a.(attempts := a.attempts + 1)
    else Audit(a.log, StampRows(a.policies, id, now), a.attempts + 1)
  }

  /** The directory `run_cleanup` names in the log for a policy. */
  function FolderOf(p: Policy): Path {
    if p.feedType == "stream" then StreamPath(p.feedName) else TablePath(p.feedName)
  }

  /** The writes after one policy's cleanup: logged and stamped only when it counted some file. */
  function AfterPolicy(a: Audit, rejects: set<nat>, dryRun: bool, p: Policy, files: nat, now: int): Audit {
    if files > 0 then Stamped(Logged(a, rejects, dryRun, p.feedName, p.feedType, FolderOf(p), files), rejects, dryRun, p.policyId, now)
    else a
  }

  /**
   * One policy's cleanup: the stream cleanup for a `stream` feed, the table
   * cleanup for any other, and nothing for a table policy without a
   * version count.
   */
  ghost predicate PolicySwept(lake: Lake, p: Policy, now: int, dryRun: bool, after: Lake, files: nat, raised: Option<Exception>) {
    if p.feedType == "stream" then
      exists swept :: StreamCleaned(lake, p.feedName, p.retentionDays, now, dryRun, after, files, swept, raised)
    else if p.retentionVersions.None? then after == lake && files == 0 && raised == None
    else exists deleted :: TableCleaned(lake, p.feedName, p.retentionVersions.value, dryRun, after, files, deleted, raised)
  }

  /**
   * The policies `ps[..|counts|]` cleaned up in turn without raising: the
   * cleanup of `ps[j]` took the tree `lakes[j]` to `lakes[j + 1]`, counting
   * `counts[j]` files, and the writes that followed took `audits[j]` to
   * `audits[j + 1]`.
   */
  ghost predicate SweptInTurn(ps: seq<Policy>, now: int, dryRun: bool, rejects: set<nat>,
                              lakes: seq<Lake>, audits: seq<Audit>, counts: seq<nat>)
  {
    && AuditedInTurn(ps, now, dryRun, rejects, audits, counts)
    && |lakes| == |counts| + 1 && |counts| <= |ps|
    && forall j :: 0 <= j < |counts| ==> PolicySwept(lakes[j], ps[j], now, dryRun, lakes[j + 1], counts[j], None)
  }

  /** `total_files`: the counts added up in order. */
  function Sum(s: seq<nat>): nat
    decreases |s|
  {
    if s == [] then 0 else Sum(s[..|s| - 1]) + s[|s| - 1]
  }

  /** One more policy cleaned up without raising extends the trace. */
  lemma SweptInTurnExtend(ps: seq<Policy>, now: int, dryRun: bool, rejects: set<nat>,
                          lakes: seq<Lake>, audits: seq<Audit>, counts: seq<nat>, next: Lake, files: nat)
    requires SweptInTurn(ps, now, dryRun, rejects, lakes, audits, counts) && |counts| < |ps|
    requires PolicySwept(lakes[|counts|], ps[|counts|], now, dryRun, next, files, None)
    ensures var a := AfterPolicy(audits[|counts|], rejects, dryRun, ps[|counts|], files, now);
            && SweptInTurn(ps, now, dryRun, rejects, lakes + [next], audits + [a], counts + [files])
            && Sum(counts + [files]) == Sum(counts) + files
  {
    AuditedInTurnExtend(ps, now, dryRun, rejects, audits, counts, files);
    LakesSweptExtend(ps, now, dryRun, lakes, counts, next, files);
    assert (counts + [files])[..|counts|] == counts;
  }

  lemma AuditedInTurnExtend(ps: seq<Policy>, now: int, dryRun: bool, rejects: set<nat>,
                            audits: seq<Audit>, counts: seq<nat>, files: nat)
    requires AuditedInTurn(ps, now, dryRun, rejects, audits, counts) && |counts| < |ps|
    ensures AuditedInTurn(ps, now, dryRun, rejects,
                          audits + [AfterPolicy(audits[|counts|], rejects, dryRun, ps[|counts|], files, now)],
                          counts + [files])
  {
    var n := |counts|;
    var a := AfterPolicy(audits[n], rejects, dryRun, ps[n], files, now);
    assert (audits + [a])[..n + 1] == audits && (counts + [files])[..n] == counts;
  }

  lemma LakesSweptExtend(ps: seq<Policy>, now: int, dryRun: bool, lakes: seq<Lake>, counts: seq<nat>, next: Lake, files: nat)
    requires |lakes| == |counts| + 1 && |counts| < |ps|
    requires forall j :: 0 <= j < |counts| ==> PolicySwept(lakes[j], ps[j], now, dryRun, lakes[j + 1], counts[j], None)
    requires PolicySwept(lakes[|counts|], ps[|counts|], now, dryRun, next, files, None)
    ensures forall j :: 0 <= j < |counts| + 1 ==>
              PolicySwept((lakes + [next])[j], ps[j], now, dryRun, (lakes + [next])[j + 1], (counts + [files])[j], None)
  {
    var n := |counts|;
    var lakes', counts' := lakes + [next], counts + [files];
    forall j | 0 <= j < n
      ensures PolicySwept(lakes'[j], ps[j], now, dryRun, lakes'[j + 1], counts'[j], None)
    {
      assert lakes'[j] == lakes[j] && lakes'[j + 1] == lakes[j + 1] && counts'[j] == counts[j];
    }
    assert lakes'[n] == lakes[n] && lakes'[n + 1] == next && counts'[n] == files;
  }

  /** When the server accepts every write, a policy that counted files appends its entry to the log. */
  lemma AcceptedPolicyLog(a: Audit, p: Policy, files: nat, now: int)
    ensures AfterPolicy(a, {}, false, p, files, now).log
            == a.log + (if files > 0 then [DeletionOf(p.feedName, p.feedType, FolderOf(p), files)] else [])
  {
  }

  /** The deletion log entries a run writes when the server accepts every write. */
  function Entries(ps: seq<Policy>, counts: seq<nat>): seq<Deletion>
    requires |counts| <= |ps|
    decreases |counts|
  {
    if counts == [] then []
    else
      var n := |counts|;
      Entries(ps, counts[..n - 1])
      + (if counts[n - 1] > 0 then [DeletionOf(ps[n - 1].feedName, ps[n - 1].feedType, FolderOf(ps[n - 1]), counts[n - 1])] else [])
  }

  /** A log entry for a retention cleanup of some policy of the run, with the files it counted. */
  ghost predicate RunEntry(ps: seq<Policy>, counts: seq<nat>, e: Deletion)
    requires |counts| <= |ps|
  {
    && e.deletionType == RetentionDeletion
    && exists j :: 0 <= j < |counts| && e == DeletionOf(ps[j].feedName, ps[j].feedType, FolderOf(ps[j]), counts[j])
  }

  lemma RunEntryGrows(ps: seq<Policy>, counts: seq<nat>, e: Deletion)
    requires 0 < |counts| <= |ps| && RunEntry(ps, counts[..|counts| - 1], e)
    ensures RunEntry(ps, counts, e)
  {
    var j :| 0 <= j < |counts| - 1 && e == DeletionOf(ps[j].feedName, ps[j].feedType, FolderOf(ps[j]), counts[..|counts| - 1][j]);
  }

  /** The writes after one policy add at most its own log entry, and only when it counted some file. */
  lemma AfterPolicyLog(a: Audit, rejects: set<nat>, dryRun: bool, p: Policy, files: nat, now: int)
    ensures var r := AfterPolicy(a, rejects, dryRun, p, files, now).log;
            && |a.log| <= |r| <= |a.log| + 1 && r[..|a.log|] == a.log
            && (|r| > |a.log| ==> files > 0 && r[|a.log|] == DeletionOf(p.feedName, p.feedType, FolderOf(p), files))
  {
  }

  /** A policy's cleanup in a dry run leaves the tree as it was, whatever it raises. */
  lemma DryRunPolicyKeepsLake(lake: Lake, p: Policy, now: int, after: Lake, files: nat, raised: Option<Exception>)
    requires PolicySwept(lake, p, now, true, after, files, raised)
    ensures after == lake
  {
  }

  /** The audit writes of a run on their own: those after `ps[j]` took `audits[j]` to `audits[j + 1]`. */
  ghost predicate AuditedInTurn(ps: seq<Policy>, now: int, dryRun: bool, rejects: set<nat>,
                                audits: seq<Audit>, counts: seq<nat>)
    decreases |counts|
  {
    var n := |counts|;
    && |audits| == n + 1 && n <= |ps|
    && (n > 0 ==>
         && AuditedInTurn(ps, now, dryRun, rejects, audits[..n], counts[..n - 1])
         && audits[n] == AfterPolicy(audits[n - 1], rejects, dryRun, ps[n - 1], counts[n - 1], now))
  }

  /** A dry run changes neither the tree nor the tables, however many policies it goes through. */
  lemma {:induction false} DryRunChangesNothing(ps: seq<Policy>, now: int, rejects: set<nat>,
                                                lakes: seq<Lake>, audits: seq<Audit>, counts: seq<nat>)
    requires SweptInTurn(ps, now, true, rejects, lakes, audits, counts)
    ensures lakes[|counts|] == lakes[0] && audits[|counts|] == audits[0]
  {
    DryRunAuditsKept(ps, now, rejects, audits, counts);
    DryRunLakesKept(ps, now, rejects, lakes, audits, counts, |counts|);
  }

  lemma {:induction false} DryRunAuditsKept(ps: seq<Policy>, now: int, rejects: set<nat>, audits: seq<Audit>, counts: seq<nat>)
    requires AuditedInTurn(ps, now, true, rejects, audits, counts)
    ensures audits[|counts|] == audits[0]
    decreases |counts|
  {
    var n := |counts|;
    if n > 0 {
      DryRunAuditsKept(ps, now, rejects, audits[..n], counts[..n - 1]);
    }
  }

  lemma {:induction false} DryRunLakesKept(ps: seq<Policy>, now: int, rejects: set<nat>,
                                           lakes: seq<Lake>, audits: seq<Audit>, counts: seq<nat>, k: nat)
    requires SweptInTurn(ps, now, true, rejects, lakes, audits, counts) && k <= |counts|
    ensures lakes[k] == lakes[0]
    decreases k
  {
    if k > 0 {
      DryRunLakesKept(ps, now, rejects, lakes, audits, counts, k - 1);
      DryRunTurnKeepsLake(ps, now, rejects, lakes, audits, counts, k - 1);
    }
  }

  /** One policy's turn of a dry run leaves the tree as the turn before left it. */
  lemma DryRunTurnKeepsLake(ps: seq<Policy>, now: int, rejects: set<nat>,
                            lakes: seq<Lake>, audits: seq<Audit>, counts: seq<nat>, j: nat)
    requires SweptInTurn(ps, now, true, rejects, lakes, audits, counts) && j < |counts|
    ensures lakes[j + 1] == lakes[j]
  {
    assert PolicySwept(lakes[j], ps[j], now, true, lakes[j + 1], counts[j], None);
    DryRunPolicyKeepsLake(lakes[j], ps[j], now, lakes[j + 1], counts[j], None);
  }

  /**
   * The deletion log only grows, and every entry a run adds records a
   * retention cleanup of one of its policies that counted some file, with
   * that policy's count and folder.
   */
  lemma {:induction false} LoggedEntriesCountFiles(ps: seq<Policy>, now: int, dryRun: bool, rejects: set<nat>,
                                                   audits: seq<Audit>, counts: seq<nat>)
    requires AuditedInTurn(ps, now, dryRun, rejects, audits, counts)
    ensures var a, z := audits[0].log, audits[|counts|].log;
            && |a| <= |z| && z[..|a|] == a
            && forall k :: |a| <= k < |z| ==> z[k].filesDeleted > 0 && RunEntry(ps, counts, z[k])
    decreases |counts|
  {
    var n := |counts|;
    if n > 0 {
      LoggedEntriesCountFiles(ps, now, dryRun, rejects, audits[..n], counts[..n - 1]);
      assert audits[..n][0] == audits[0] && audits[..n][n - 1] == audits[n - 1];
      var a, y, z := audits[0].log, audits[n - 1].log, audits[n].log;
      AfterPolicyLog(audits[n - 1], rejects, dryRun, ps[n - 1], counts[n - 1], now);
      forall k | |a| <= k < |z|
        ensures z[k].filesDeleted > 0 && RunEntry(ps, counts, z[k])
      {
        if k < |y| {
          assert z[k] == y[k];
          RunEntryGrows(ps, counts, y[k]);
        } else {
          assert z[k] == DeletionOf(ps[n - 1].feedName, ps[n - 1].feedType, FolderOf(ps[n - 1]), counts[n - 1]);
        }
      }
    }
  }

  /** When no write is refused, a run that is no dry run logs exactly one entry per policy that counted some file, in turn. */
  lemma {:induction false} EveryDeletionLogged(ps: seq<Policy>, now: int, audits: seq<Audit>, counts: seq<nat>)
    requires AuditedInTurn(ps, now, false, {}, audits, counts)
    ensures audits[|counts|].log == audits[0].log + Entries(ps, counts)
    decreases |counts|
  {
    var n := |counts|;
    if n > 0 {
      EveryDeletionLogged(ps, now, audits[..n], counts[..n - 1]);
      assert audits[..n][0] == audits[0] && audits[..n][n - 1] == audits[n - 1];
      var p := ps[n - 1];
      var entry := if counts[n - 1] > 0 then [DeletionOf(p.feedName, p.feedType, FolderOf(p), counts[n - 1])] else [];
      AcceptedPolicyLog(audits[n - 1], p, counts[n - 1], now);
      Regroup(audits[0].log, Entries(ps, counts[..n - 1]), entry);
    }
  }

  /**
   * `DataRetentionManager`: the deletion log and the policy table it
   * writes, and how many writes it has attempted; `rejects` numbers the
   * writes the server refuses.
   */
  class RetentionManager {
    const dryRun: bool
    const rejects: set<nat>
    var log: seq<Deletion>
    var policies: seq<Policy>
    var attempts: nat

    function State(): Audit
      reads this
    {
      Audit(log, policies, attempts)
    }

    constructor(dryRun: bool, rejects: set<nat>, log: seq<Deletion>, policies: seq<Policy>)
      ensures this.dryRun == dryRun && this.rejects == rejects
      ensures State() == Audit(log, policies, 0)
    {
      this.dryRun := dryRun;
      this.rejects := rejects;
      this.log := log;
      this.policies := policies;
      this.attempts := 0;
    }

    /** `get_retention_policies`. */
    method GetRetentionPolicies() returns (ps: seq<Policy>)
      ensures ps == ActivePolicies(policies)
    {
      var rows := policies;
      ps := [];
      assert rows[0..] == rows;
      for i := 0 to |rows|
        invariant ActivePolicies(rows) == ps + ActivePolicies(rows[i..])
      {
        ActivePoliciesStep(rows, i, ps);
        ps := ps + if rows[i].isActive && rows[i].autoDelete then [rows[i]] else [];
      }
      assert rows[|rows|..] == [];
    }

    /** `log_deletion`. */
    method LogDeletion(feedName: string, feedType: string, folder: Path, files: nat)
      modifies this
      ensures State() == Logged(old(State()), rejects, dryRun, feedName, feedType, folder, files)
    {
      if dryRun {
        return;
      }
      if attempts !in rejects {
        log := log + [DeletionOf(feedName, feedType, folder, files)];
      }
      attempts := attempts + 1;
    }

    /** `update_last_cleanup`. */
    method UpdateLastCleanup(id: int, now: int)
      modifies this
      ensures State() == Stamped(old(State()), rejects, dryRun, id, now)
    {
      if dryRun {
        return;
      }
      if attempts !in rejects {
        var rows := policies;
        for i := 0 to |rows|
          invariant |rows| == |policies|
          invariant rows[..i] == StampRows(policies, id, now)[..i] && rows[i..] == policies[i..]
        {
          if rows[i].policyId == id {
            rows := rows[i := rows[i].(lastCleanupAt := Some(now))];
          }
        }
        policies := rows;
      }
      attempts := attempts + 1;
    }

    /** The branch of `run_cleanup` for one policy. */
    method CleanupPolicy(lake: Lake, p: Policy, now: int) returns (after: Lake, files: nat, raised: Option<Exception>)
      ensures PolicySwept(lake, p, now, dryRun, after, files, raised)
    {
      if p.feedType == "stream" {
        ghost var swept;
        after, files, swept, raised := CleanupStreamData(lake, p.feedName, p.retentionDays, now, dryRun);
      } else if p.retentionVersions.None? {
        after, files, raised := lake, 0, None;
      } else {
        ghost var deleted;
        after, files, deleted, raised := CleanupTableData(lake, p.feedName, p.retentionVersions.value, dryRun);
      }
    }

    /** The body of `run_cleanup`'s loop for one policy: clean up, then log and stamp when files went. */
    method SweepPolicy(lake: Lake, p: Policy, now: int) returns (after: Lake, files: nat, raised: Option<Exception>)
      modifies this
      ensures PolicySwept(lake, p, now, dryRun, after, files, raised)
      ensures State() == if raised.Some? then old(State()) else AfterPolicy(old(State()), rejects, dryRun, p, files, now)
    {
      after, files, raised := CleanupPolicy(lake, p, now);
      if raised.None? && files > 0 {
        LogDeletion(p.feedName, p.feedType, FolderOf(p), files);
        UpdateLastCleanup(p.policyId, now);
      }
    }

    /**
     * `run_cleanup`: the active policies in turn, each cleanup followed by
     * its log entry and time stamp when it counted some file; the first
     * exception ends the run and is raised again.
     */
    method RunCleanup(lake: Lake, now: int)
      returns (after: Lake, total: nat, raised: Option<Exception>,
               ghost lakes: seq<Lake>, ghost audits: seq<Audit>, ghost counts: seq<nat>)
      modifies this
      ensures var ps := ActivePolicies(old(policies));
              && SweptInTurn(ps, now, dryRun, rejects, lakes, audits, counts)
              && lakes[0] == lake && audits[0] == old(State()) && audits[|counts|] == State()
              && (raised.None? ==> |counts| == |ps| && after == lakes[|counts|] && total == Sum(counts))
              && (raised.Some? ==>
                    && |counts| < |ps|
                    && exists files :: PolicySwept(lakes[|counts|], ps[|counts|], now, dryRun, after, files, raised))
    {
      var ps := GetRetentionPolicies();
      after, total, raised := lake, 0, None;
      lakes, audits, counts := [lake], [State()], [];
      for i := 0 to |ps|
        invariant |counts| == i && |lakes| == |audits| == i + 1
        invariant lakes[0] == lake && audits[0] == old(State()) && lakes[i] == after && audits[i] == State()
        invariant SweptInTurn(ps, now, dryRun, rejects, lakes, audits, counts)
        invariant total == Sum(counts)
      {
        var next, files, err := SweepPolicy(after, ps[i], now);
        if err.Some? {
          return next, total, err, lakes, audits, counts;
        }
        SweptInTurnExtend(ps, now, dryRun, rejects, lakes, audits, counts, next, files);
        total := total + files;
        after := next;
        lakes, audits, counts := lakes + [after], audits + [State()], counts + [files];
      }
    }
  }
}
