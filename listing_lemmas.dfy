/**
 * What `sortDirFiles` guarantees, stated against an independent description
 * of filtering: a filter keeps each wanted element exactly as often as it
 * occurs, drops every other one, and keeps the original order.
 */
module ListingLemmas {
  import opened Wrappers
  import opened Listing

  /** `a` is obtained from `b` by deleting elements, the rest in order. */
  predicate IsSubsequence<T(==)>(a: seq<T>, b: seq<T>)
    decreases |b|
  {
    a == [] || (b != [] && ((a[0] == b[0] && IsSubsequence(a[1..], b[1..])) || IsSubsequence(a, b[1..])))
  }

  /** A filter keeps exactly the occurrences of the wanted elements. */
  lemma {:induction false} FilterCount<T>(s: seq<T>, keep: T -> bool, x: T)
    ensures multiset(Filter(s, keep))[x] == if keep(x) then multiset(s)[x] else 0
  {
    if s != [] {
      FilterCount(s[1..], keep, x);
      assert s == [s[0]] + s[1..];
    }
  }

  /** A filter keeps the original order. */
  lemma {:induction false} FilterSubsequence<T>(s: seq<T>, keep: T -> bool)
    ensures IsSubsequence(Filter(s, keep), s)
  {
    if s != [] {
      FilterSubsequence(s[1..], keep);
      var rest := Filter(s[1..], keep);
      if keep(s[0]) {
        assert Filter(s, keep) == [s[0]] + rest;
        assert ([s[0]] + rest)[1..] == rest;
      } else {
        assert Filter(s, keep) == rest;
      }
    }
  }

  lemma {:induction false} FilterAppend<T>(a: seq<T>, b: seq<T>, keep: T -> bool)
    ensures Filter(a + b, keep) == Filter(a, keep) + Filter(b, keep)
  {
    if a != [] {
      assert (a + b)[1..] == a[1..] + b;
      FilterAppend(a[1..], b, keep);
    } else {
      assert a + b == b;
    }
  }

  /** Filtering a sequence that only holds wanted elements returns it unchanged. */
  lemma {:induction false} FilterKeepsAll<T>(s: seq<T>, keep: T -> bool)
    requires forall x :: x in s ==> keep(x)
    ensures Filter(s, keep) == s
  {
    if s != [] {
      assert s[0] in s;
      assert forall x :: x in s[1..] ==> x in s;
      FilterKeepsAll(s[1..], keep);
      assert [s[0]] + s[1..] == s;
    }
  }

  /** Filtering a sequence that holds no wanted element returns nothing. */
  lemma {:induction false} FilterKeepsNone<T>(s: seq<T>, keep: T -> bool)
    requires forall x :: x in s ==> !keep(x)
    ensures Filter(s, keep) == []
  {
    if s != [] {
      assert s[0] in s;
      assert forall x :: x in s[1..] ==> x in s;
      FilterKeepsNone(s[1..], keep);
    }
  }

  /**
   * `sortDirFiles` in full: its result is the kept directories followed by
   * the kept files; each group is in the input's order and holds every kept
   * entry as many times as the input does.
   */
  lemma SortDirFilesGroups(fs: seq<FileDir>, ignored: Ignored)
    ensures var r := SortDirFiles(fs, ignored);
      exists k :: 0 <= k <= |r|
        && IsSubsequence(r[..k], fs) && IsSubsequence(r[k..], fs)
        && (forall f :: multiset(r[..k])[f] == if f.dir && f.name !in ignored.dirs then multiset(fs)[f] else 0)
        && (forall f :: multiset(r[k..])[f] == if f.file && f.name !in ignored.files then multiset(fs)[f] else 0)
  {
    var r := SortDirFiles(fs, ignored);
    var dirs := Filter(fs, KeepDir(ignored));
    var k := |dirs|;
    assert r[..k] == dirs && r[k..] == Filter(fs, KeepFile(ignored));
    FilterSubsequence(fs, KeepDir(ignored));
    FilterSubsequence(fs, KeepFile(ignored));
    forall f ensures multiset(r[..k])[f] == if f.dir && f.name !in ignored.dirs then multiset(fs)[f] else 0 {
      FilterCount(fs, KeepDir(ignored), f);
    }
    forall f ensures multiset(r[k..])[f] == if f.file && f.name !in ignored.files then multiset(fs)[f] else 0 {
      FilterCount(fs, KeepFile(ignored), f);
    }
  }

  /** Two groups, each wanted by its own test only, are separated again by filtering. */
  lemma RefilterGroups<T>(a: seq<T>, b: seq<T>, p: T -> bool, q: T -> bool)
    requires forall x :: x in a ==> p(x) && !q(x)
    requires forall x :: x in b ==> q(x) && !p(x)
    ensures Filter(a + b, p) + Filter(a + b, q) == a + b
  {
    assert Filter(a + b, p) == a by {
      FilterAppend(a, b, p);
      FilterKeepsAll(a, p);
      FilterKeepsNone(b, p);
    }
    assert Filter(a + b, q) == b by {
      FilterAppend(a, b, q);
      FilterKeepsNone(a, q);
      FilterKeepsAll(b, q);
    }
  }

  /** When no entry is both a file and a directory, sorting an already sorted listing changes nothing. */
  lemma SortDirFilesIdempotent(fs: seq<FileDir>, ignored: Ignored)
    requires forall f :: f in fs ==> !(f.dir && f.file)
    ensures SortDirFiles(SortDirFiles(fs, ignored), ignored) == SortDirFiles(fs, ignored)
  {
    var keepDir, keepFile := KeepDir(ignored), KeepFile(ignored);
    var dirs := Filter(fs, keepDir);
    var files := Filter(fs, keepFile);
    FilterMembers(fs, keepDir);
    FilterMembers(fs, keepFile);
    assert forall x :: x in dirs ==> keepDir(x) && !keepFile(x) by {
      forall x | x in dirs ensures keepDir(x) && !keepFile(x) {
        assert x in fs && x.dir;
      }
    }
    assert forall x :: x in files ==> keepFile(x) && !keepDir(x) by {
      forall x | x in files ensures keepFile(x) && !keepDir(x) {
        assert x in fs && x.file;
      }
    }
    RefilterGroups(dirs, files, keepDir, keepFile);
  }

  /**
   * `pathExplore` on a path ending in `/` lists exactly the directories whose
   * names are not ignored, in the order the listing gave them.
   */
  lemma ExploreCompleteListsKeptDirs(dirs: seq<FileDir>, ignored: Ignored, fuzzy: Fuzzy)
    ensures var r := ExploreResult(dirs, None, ignored, fuzzy);
      && IsSubsequence(r, dirs)
      && forall d :: d in r <==> d in dirs && d.name !in ignored.dirs
  {
    FilterSubsequence(dirs, (d: FileDir) => d.name !in ignored.dirs);
    FilterMembers(dirs, (d: FileDir) => d.name !in ignored.dirs);
  }
}
