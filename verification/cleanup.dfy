/**
 `cleanupOldFiles` as a pure function: from the directory, the sorted listing
 of its `log-` files and `maxFiles`, the directory that remains.
 Swift's `sorted` leaves the order of equal dates open, so the sorted listing
 is an input; every property below holds for each listing sorted newest first.
 */
module Cleanup {
  import opened Directories

  predicate Distinct(s: seq<string>) {
    forall i, j :: 0 <= i < j < |s| ==> s[i] != s[j]
  }

  /** `order` lists every `log-` file of `dir` exactly once. */
  predicate IsLogListing(dir: Directory, order: seq<string>) {
    && Distinct(order)
    && (forall i :: 0 <= i < |order| ==> order[i] in dir && IsLogName(order[i]))
    && (forall n :: n in LogNames(dir) ==> n in order)
  }

  /** Newest first, by creation date; files without a date count as `distantPast`. */
  predicate SortedNewestFirst(dir: Directory, order: seq<string>)
    requires forall i :: 0 <= i < |order| ==> order[i] in dir
  {
    forall i, j :: 0 <= i < j < |order| ==> CreationKey(dir[order[i]]) >= CreationKey(dir[order[j]])
  }

  /** A possible result of the filter-and-sort of the directory listing. */
  predicate SortedLogListing(dir: Directory, order: seq<string>) {
    IsLogListing(dir, order) && SortedNewestFirst(dir, order)
  }

  function Min(a: int, b: int): int {
    if a <= b then a else b
  }

  /** `dropFirst(maxFiles)` behind the `count > maxFiles` guard: all but the newest `maxFiles`. */
  function FilesToDelete(order: seq<string>, maxFiles: nat): (r: seq<string>)
    ensures |order| - |r| == Min(|order|, maxFiles)
    ensures order == order[..|order| - |r|] + r
  {
    if |order| > maxFiles then order[maxFiles..] else []
  }

  /**
   The deletions that happen: `removeItem` goes down the list and the first one
   that throws ends the loop, so this is the longest prefix free of failures.
   */
  function Deleted(toDelete: seq<string>, failures: set<string>): (r: seq<string>)
    ensures |r| <= |toDelete| && r == toDelete[..|r|]
    ensures forall i :: 0 <= i < |r| ==> r[i] !in failures
    ensures |r| < |toDelete| ==> toDelete[|r|] in failures
  {
    if toDelete == [] || toDelete[0] in failures then []
    else [toDelete[0]] + Deleted(toDelete[1..], failures)
  }

  function RemoveAll(dir: Directory, names: seq<string>): (r: Directory)
    ensures forall n :: n in r <==> n in dir && n !in names
    ensures forall n :: n in r ==> r[n] == dir[n]
  {
    map n | n in dir && n !in names :: dir[n]
  }

  /**
   `cleanupOldFiles`. When listing the directory throws, nothing is deleted.
   A negative `maxFiles` traps in `dropFirst` once the listing succeeds, so the
   listing must then come with `maxFiles >= 0`.
   */
  function CleanupOldFiles(dir: Directory, maxFiles: int, listOk: bool, order: seq<string>,
                           failures: set<string>): (r: Directory)
    requires listOk ==> maxFiles >= 0 && SortedLogListing(dir, order)
    ensures r.Keys <= dir.Keys
    ensures forall n :: n in r ==> r[n] == dir[n]
    ensures forall n :: n in dir && !IsLogName(n) ==> n in r
    ensures !listOk ==> r == dir
    ensures listOk && |LogNames(dir)| <= maxFiles ==> r == dir
  {
    if !listOk then dir
    else
      var gone := Deleted(FilesToDelete(order, maxFiles), failures);
      DeletionsAreListed(dir, maxFiles, order, failures);
      RemoveAll(dir, gone)
  }

  /** Deletions are `log-` files of the listing, and there are none within the limit. */
  lemma DeletionsAreListed(dir: Directory, maxFiles: nat, order: seq<string>, failures: set<string>)
    requires SortedLogListing(dir, order)
    ensures forall n :: n in Deleted(FilesToDelete(order, maxFiles), failures) ==> n in order && IsLogName(n)
    ensures |LogNames(dir)| <= maxFiles ==> RemoveAll(dir, Deleted(FilesToDelete(order, maxFiles), failures)) == dir
  {
    var gone := Deleted(FilesToDelete(order, maxFiles), failures);
    var doomed := FilesToDelete(order, maxFiles);
    forall n | n in gone ensures n in order && IsLogName(n) {
      var i :| 0 <= i < |gone| && gone[i] == n;
      assert doomed[i] == n;
      assert order[|order| - |doomed| + i] == n;
    }
    if |LogNames(dir)| <= maxFiles {
      ListingCardinality(dir, order);
      assert gone == [];
      assert RemoveAll(dir, gone) == dir;
    }
  }

  lemma {:induction false} DistinctCardinality(s: seq<string>)
    requires Distinct(s)
    ensures |set x | x in s| == |s|
  {
    if s != [] {
      var tail := s[1..];
      assert Distinct(tail) by {
        forall i, j | 0 <= i < j < |tail| ensures tail[i] != tail[j] {
          assert tail[i] == s[i + 1] && tail[j] == s[j + 1];
        }
      }
      DistinctCardinality(tail);
      assert (set x | x in s) == (set x | x in tail) + {s[0]};
      assert s[0] !in (set x | x in tail) by {
        forall i | 0 <= i < |tail| ensures tail[i] != s[0] {
          assert tail[i] == s[i + 1];
        }
      }
    }
  }

  /** A listing is as long as the number of `log-` files. */
  lemma ListingCardinality(dir: Directory, order: seq<string>)
    requires IsLogListing(dir, order)
    ensures |order| == |LogNames(dir)|
  {
    assert (set x | x in order) == LogNames(dir);
    DistinctCardinality(order);
  }

  /** Without failures every scheduled deletion happens. */
  lemma {:induction false} DeletedWithoutFailures(toDelete: seq<string>, failures: set<string>)
    requires forall i :: 0 <= i < |toDelete| ==> toDelete[i] !in failures
    ensures Deleted(toDelete, failures) == toDelete
  {
    if toDelete != [] {
      DeletedWithoutFailures(toDelete[1..], failures);
    }
  }

  /** A distinct sequence splits into a prefix and a suffix that share no element. */
  lemma SplitDistinct(order: seq<string>, k: nat)
    requires Distinct(order) && k <= |order|
    ensures forall n :: n in order <==> n in order[..k] || n in order[k..]
    ensures forall n :: n in order[..k] ==> n !in order[k..]
  {
    assert order == order[..k] + order[k..];
  }

  lemma DoomedIsSuffix(order: seq<string>, maxFiles: nat)
    ensures FilesToDelete(order, maxFiles) == order[Min(|order|, maxFiles)..]
  {
  }

  /** Removing the suffix after `k` from a listing leaves, among `log-` files, the prefix. */
  lemma RemovingSuffixKeepsPrefix(dir: Directory, order: seq<string>, k: nat)
    requires IsLogListing(dir, order) && k <= |order|
    ensures forall n :: n in LogNames(RemoveAll(dir, order[k..])) <==> n in order[..k]
  {
    var r := RemoveAll(dir, order[k..]);
    SplitDistinct(order, k);
    forall n ensures n in LogNames(r) <==> n in order[..k] {
      if n in order[..k] {
        assert n in order && n !in order[k..];
      }
      if n in LogNames(r) {
        assert n in LogNames(dir);
      }
    }
  }

  /** With no failing deletion, every scheduled deletion happens. */
  lemma NoFailingDeletion(dir: Directory, maxFiles: nat, order: seq<string>, failures: set<string>)
    requires IsLogListing(dir, order)
    requires failures !! LogNames(dir)
    ensures Deleted(FilesToDelete(order, maxFiles), failures) == order[Min(|order|, maxFiles)..]
  {
    var doomed := FilesToDelete(order, maxFiles);
    var k := Min(|order|, maxFiles);
    DoomedIsSuffix(order, maxFiles);
    forall i | 0 <= i < |doomed| ensures doomed[i] !in failures {
      assert doomed[i] == order[k + i];
      assert doomed[i] in LogNames(dir);
    }
    DeletedWithoutFailures(doomed, failures);
  }

  /** With no failing deletion, cleanup keeps exactly the listed prefix of length `min(count, maxFiles)`. */
  lemma KeptPrefix(dir: Directory, maxFiles: nat, order: seq<string>, failures: set<string>)
    requires SortedLogListing(dir, order)
    requires failures !! LogNames(dir)
    ensures forall n :: n in LogNames(CleanupOldFiles(dir, maxFiles, true, order, failures)) <==>
      n in order[..Min(|order|, maxFiles)]
  {
    var k := Min(|order|, maxFiles);
    NoFailingDeletion(dir, maxFiles, order, failures);
    assert CleanupOldFiles(dir, maxFiles, true, order, failures) == RemoveAll(dir, order[k..]);
    RemovingSuffixKeepsPrefix(dir, order, k);
  }

  /**
   The retention bound: when the listing succeeds and no deletion of a `log-`
   file fails, the `log-` files left are exactly the first `maxFiles` of the
   listing, so there are `min(count, maxFiles)` of them.
   */
  lemma RetentionBound(dir: Directory, maxFiles: nat, order: seq<string>, failures: set<string>)
    requires SortedLogListing(dir, order)
    requires failures !! LogNames(dir)
    ensures var r := CleanupOldFiles(dir, maxFiles, true, order, failures);
      && LogNames(r) == (set x | x in order[..Min(|order|, maxFiles)])
      && |LogNames(r)| == Min(|LogNames(dir)|, maxFiles)
  {
    var r := CleanupOldFiles(dir, maxFiles, true, order, failures);
    var k := Min(|order|, maxFiles);
    KeptPrefix(dir, maxFiles, order, failures);
    var kept := order[..k];
    assert LogNames(r) == (set x | x in kept);
    assert Distinct(kept) by {
      forall i, j | 0 <= i < j < |kept| ensures kept[i] != kept[j] {
        assert kept[i] == order[i] && kept[j] == order[j];
      }
    }
    DistinctCardinality(kept);
    ListingCardinality(dir, order);
  }

  /** Position of a listed name. */
  lemma IndexOf(order: seq<string>, n: string) returns (i: int)
    requires n in order
    ensures 0 <= i < |order| && order[i] == n
  {
    i :| 0 <= i < |order| && order[i] == n;
  }

  /** Every deleted file is a listed `log-` file at least as old as each of the newest `maxFiles`. */
  lemma DeletedNoNewerThanKept(dir: Directory, maxFiles: nat, order: seq<string>, failures: set<string>)
    requires SortedLogListing(dir, order)
    ensures var r := CleanupOldFiles(dir, maxFiles, true, order, failures);
      forall b :: b in dir && b !in r ==>
        && IsLogName(b)
        && forall i :: 0 <= i < Min(|order|, maxFiles) ==> CreationKey(dir[order[i]]) >= CreationKey(dir[b])
  {
    var r := CleanupOldFiles(dir, maxFiles, true, order, failures);
    var doomed := FilesToDelete(order, maxFiles);
    var gone := Deleted(doomed, failures);
    var k := Min(|order|, maxFiles);
    forall b | b in dir && b !in r
      ensures IsLogName(b)
      ensures forall i :: 0 <= i < k ==> CreationKey(dir[order[i]]) >= CreationKey(dir[b])
    {
      assert b in gone;
      var g := IndexOf(gone, b);
      assert doomed[g] == b;
      assert order[k + g] == b;
    }
  }

  /**
   The first deletion that throws leaves it and every later scheduled file in
   place.
   */
  lemma FailedDeletionKeepsTheRest(dir: Directory, maxFiles: nat, order: seq<string>, failures: set<string>, i: int)
    requires SortedLogListing(dir, order)
    requires 0 <= i < |FilesToDelete(order, maxFiles)|
    requires FilesToDelete(order, maxFiles)[i] in failures
    ensures var r := CleanupOldFiles(dir, maxFiles, true, order, failures);
      forall j :: i <= j < |FilesToDelete(order, maxFiles)| ==> FilesToDelete(order, maxFiles)[j] in r
  {
    var doomed := FilesToDelete(order, maxFiles);
    var gone := Deleted(doomed, failures);
    var k := Min(|order|, maxFiles);
    assert |gone| <= i;
    forall j | i <= j < |doomed| ensures doomed[j] !in gone {
    }
  }

  /** A file with no creation date is listed after every file that has one. */
  lemma MissingDateSortsOldest(dir: Directory, order: seq<string>)
    requires SortedLogListing(dir, order)
    ensures forall i, j :: 0 <= i < |order| && 0 <= j < |order| ==>
      (dir[order[i]].creationDate.None? && dir[order[j]].creationDate.Some? ==> j < i)
  {
  }

  lemma SubsetCardinality(a: set<string>, b: set<string>)
    requires a <= b
    ensures |a| <= |b|
  {
    assert b == a + (b - a);
  }

  /** The `log-` files strictly newer than `a`. */
  function NewerThan(dir: Directory, a: string): set<string>
    requires a in dir
  {
    set b | b in LogNames(dir) && CreationKey(dir[b]) > CreationKey(dir[a])
  }

  /** The other `log-` files at least as new as `b`. */
  function AtLeastAsNew(dir: Directory, b: string): set<string>
    requires b in dir
  {
    set a | a in LogNames(dir) && a != b && CreationKey(dir[a]) >= CreationKey(dir[b])
  }

  lemma PrefixCardinality(order: seq<string>, k: int)
    requires Distinct(order) && 0 <= k <= |order|
    ensures |set x | x in order[..k]| == k
  {
    var p := order[..k];
    assert Distinct(p) by {
      forall i, j | 0 <= i < j < |p| ensures p[i] != p[j] {
        assert p[i] == order[i] && p[j] == order[j];
      }
    }
    DistinctCardinality(p);
  }

  /** A deleted file sits at position `maxFiles` or later in the listing. */
  lemma DeletedIsListedLate(dir: Directory, maxFiles: nat, order: seq<string>, failures: set<string>, b: string)
    returns (j: nat)
    requires SortedLogListing(dir, order)
    requires b in dir && b !in CleanupOldFiles(dir, maxFiles, true, order, failures)
    ensures maxFiles <= j < |order| && order[j] == b
  {
    var doomed := FilesToDelete(order, maxFiles);
    var gone := Deleted(doomed, failures);
    assert b in gone;
    var g := IndexOf(gone, b);
    DoomedIsSuffix(order, maxFiles);
    assert doomed[g] == b;
    j := maxFiles + g;
  }

  /** In a sorted listing, the first `k` files are all at least as new as any later one. */
  lemma EarlierAreAtLeastAsNew(dir: Directory, order: seq<string>, k: nat, j: nat)
    requires SortedLogListing(dir, order)
    requires k <= j < |order|
    ensures (set x | x in order[..k]) <= AtLeastAsNew(dir, order[j])
  {
    forall x | x in order[..k] ensures x in AtLeastAsNew(dir, order[j]) {
      var i := IndexOf(order[..k], x);
      assert order[i] == x;
    }
  }

  /** One deleted file: the newest `maxFiles` are all at least as new as it. */
  lemma DeletedFileIsOld(dir: Directory, maxFiles: nat, order: seq<string>, failures: set<string>, b: string)
    requires SortedLogListing(dir, order)
    requires b in dir && b !in CleanupOldFiles(dir, maxFiles, true, order, failures)
    ensures |AtLeastAsNew(dir, b)| >= maxFiles
  {
    var j := DeletedIsListedLate(dir, maxFiles, order, failures, b);
    EarlierAreAtLeastAsNew(dir, order, maxFiles, j);
    PrefixCardinality(order, maxFiles);
    SubsetCardinality((set x | x in order[..maxFiles]), AtLeastAsNew(dir, b));
  }

  /** In a sorted listing, every file strictly newer than entry `i` is listed before it. */
  lemma NewerAreListedBefore(dir: Directory, order: seq<string>, i: nat)
    requires SortedLogListing(dir, order)
    requires i < |order|
    ensures NewerThan(dir, order[i]) <= (set x | x in order[..i])
  {
    forall x | x in NewerThan(dir, order[i]) ensures x in order[..i] {
      var j := IndexOf(order, x);
      assert j < i;
      assert order[..i][j] == x;
    }
  }

  /** One kept file, when no deletion failed: fewer than `maxFiles` files are newer. */
  lemma KeptFileIsNew(dir: Directory, maxFiles: nat, order: seq<string>, failures: set<string>, a: string)
    requires SortedLogListing(dir, order)
    requires failures !! LogNames(dir)
    requires a in LogNames(CleanupOldFiles(dir, maxFiles, true, order, failures))
    ensures |NewerThan(dir, a)| < maxFiles
  {
    KeptPrefix(dir, maxFiles, order, failures);
    var i := IndexOf(order[..Min(|order|, maxFiles)], a);
    assert order[i] == a;
    NewerAreListedBefore(dir, order, i);
    PrefixCardinality(order, i);
    SubsetCardinality(NewerThan(dir, a), (set x | x in order[..i]));
  }

  /**
   "Newest" without reference to the listing: a deleted file has at least
   `maxFiles` other `log-` files at least as new as it, and, when no deletion
   fails, every `log-` file kept has fewer than `maxFiles` strictly newer ones.
   */
  lemma KeptAreTheNewest(dir: Directory, maxFiles: nat, order: seq<string>, failures: set<string>)
    requires SortedLogListing(dir, order)
    ensures var r := CleanupOldFiles(dir, maxFiles, true, order, failures);
      forall b :: b in dir && b !in r ==> |AtLeastAsNew(dir, b)| >= maxFiles
    ensures var r := CleanupOldFiles(dir, maxFiles, true, order, failures);
      failures !! LogNames(dir) ==> forall a :: a in LogNames(r) ==> |NewerThan(dir, a)| < maxFiles
  {
    var r := CleanupOldFiles(dir, maxFiles, true, order, failures);
    forall b | b in dir && b !in r ensures |AtLeastAsNew(dir, b)| >= maxFiles {
      DeletedFileIsOld(dir, maxFiles, order, failures, b);
    }
    if failures !! LogNames(dir) {
      forall a | a in LogNames(r) ensures |NewerThan(dir, a)| < maxFiles {
        KeptFileIsNew(dir, maxFiles, order, failures, a);
      }
    }
  }
}
