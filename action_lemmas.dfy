/**
 * Properties of the individual transitions: cyclic and paged movement of
 * the selection, what `show`, `hide`, `change`, `ctrlG`, `selectPath` and
 * `select` leave behind, and how the typed path evolves in path mode.
 */
module ActionLemmas {
  import opened Wrappers
  import opened Paths
  import opened PathLemmas
  import opened Listing
  import opened ExplorerState
  import opened Actions

  /** `prev` undoes `next` and `next` undoes `prev` on a valid index. */
  lemma NextPrevInverse(ix: int, n: nat)
    requires 0 <= ix < n
    ensures PrevIndex(NextIndex(ix, n), n) == ix
    ensures NextIndex(PrevIndex(ix, n), n) == ix
  {
  }

  /** On the state: `next` then `prev` selects the entry selected before. */
  lemma NextThenPrev(s: State)
    requires IndexValid(s) && |s.paths| > 0
    ensures Prev(Next(s).next) == Update(s, NoEffect)
  {
    NextPrevInverse(s.ix, |s.paths|);
  }

  /** The index after `k` presses of `down`. */
  function DownTimes(ix: int, n: nat, k: nat): int
    decreases k
  {
    if k == 0 then ix else DownTimes(DownIndex(ix, n), n, k - 1)
  }

  /** The index after `k` presses of `up`. */
  function UpTimes(ix: int, k: nat): int
    decreases k
  {
    if k == 0 then ix else UpTimes(UpIndex(ix), k - 1)
  }

  /** Enough presses of `down` reach the last entry and stay there. */
  lemma {:induction false} PagingDownReachesLast(ix: int, n: nat, k: nat)
    requires 0 <= ix < n && n - 1 - ix <= k * PageSize
    ensures DownTimes(ix, n, k) == n - 1
    decreases k
  {
    if k > 0 {
      PagingDownReachesLast(DownIndex(ix, n), n, k - 1);
    }
  }

  /** Enough presses of `up` reach the first entry and stay there. */
  lemma {:induction false} PagingUpReachesFirst(ix: int, k: nat)
    requires 0 <= ix <= k * PageSize
    ensures UpTimes(ix, k) == 0
    decreases k
  {
    if k > 0 {
      PagingUpReachesFirst(UpIndex(ix), k - 1);
    }
  }

  /** Paging keeps a valid selection valid on a non-empty list, and moves it no further than a page. */
  lemma PagingStaysInRange(s: State)
    requires IndexValid(s) && |s.paths| > 0
    ensures IndexValid(Down(s).next) && IndexValid(Up(s).next)
    ensures s.ix <= Down(s).next.ix <= s.ix + PageSize
    ensures s.ix - PageSize <= Up(s).next.ix <= s.ix
  {
  }

  /** `hide` clears the query, the path and the index and hides; nothing else changes. */
  lemma HideResets(s: State)
    ensures Hide(s).Update? && Hide(s).effect == NoEffect
    ensures var r := Hide(s).next;
      && r.val == "" && r.path == "" && !r.vis && r.ix == 0
      && r.cwd == s.cwd && r.paths == s.paths && r.cache == s.cache
      && r.pathMode == s.pathMode && r.pathValue == s.pathValue
      && IndexValid(r)
  {
  }

  /**
   * `show` makes the explorer visible on the supplied listing, which also
   * becomes the cache; the cwd is replaced only by a non-empty one; path
   * mode is not touched.
   */
  lemma ShowDisplays(s: State, paths: seq<FileDir>, path: string, cwd: Option<string>)
    ensures Show(s, paths, path, cwd).Update? && Show(s, paths, path, cwd).effect == NoEffect
    ensures var r := Show(s, paths, path, cwd).next;
      && r.vis && r.val == "" && r.ix == 0 && r.path == path
      && r.paths == paths && r.cache == paths
      && r.cwd == (if cwd.Some? && cwd.value != "" then cwd.value else s.cwd)
      && r.pathMode == s.pathMode && r.pathValue == s.pathValue
      && IndexValid(r)
  {
  }

  /**
   * `change` records the query and selects the first entry. An empty query
   * restores the cached listing; with a matcher that only selects among its
   * candidates, a non-empty query shows only entries that were already
   * shown and that `sortDirFiles` keeps, directories first.
   */
  lemma ChangeNarrows(s: State, val: string, ignored: Ignored, fuzzy: Fuzzy)
    requires forall xs: seq<FileDir>, q: string, x: FileDir :: x in fuzzy(xs, q) ==> x in xs
    ensures Change(s, val, ignored, fuzzy).Update? && Change(s, val, ignored, fuzzy).effect == NoEffect
    ensures var r := Change(s, val, ignored, fuzzy).next;
      && r.val == val && r.ix == 0 && IndexValid(r)
      && r.cwd == s.cwd && r.cache == s.cache && r.path == s.path && r.vis == s.vis
      && r.pathMode == s.pathMode && r.pathValue == s.pathValue
      && (val == "" ==> r.paths == s.cache)
      && (val != "" ==> r.paths == SortDirFiles(fuzzy(s.paths, val), ignored))
      && (val != "" ==> forall x :: x in r.paths ==> x in s.paths && (KeepDir(ignored)(x) || KeepFile(ignored)(x)))
  {
  }

  /**
   * `ctrlG` enters path mode with an empty typed path, an empty query and
   * the first entry selected; nothing else changes.
   */
  lemma CtrlGEntersPathMode(s: State)
    ensures CtrlG(s).Update? && CtrlG(s).effect == NoEffect
    ensures var r := CtrlG(s).next;
      && r.pathMode && r.ix == 0 && r.val == "" && r.pathValue == ""
      && r.cwd == s.cwd && r.path == s.path && r.paths == s.paths && r.cache == s.cache && r.vis == s.vis
      && IndexValid(r)
  {
  }

  /** `normalMode` only leaves path mode. */
  lemma NormalModeLeavesPathMode(s: State)
    ensures NormalMode(s).Update? && NormalMode(s).effect == NoEffect
    ensures var r := NormalMode(s).next;
      && !r.pathMode
      && r.val == s.val && r.cwd == s.cwd && r.path == s.path && r.paths == s.paths
      && r.cache == s.cache && r.vis == s.vis && r.ix == s.ix && r.pathValue == s.pathValue
  {
  }

  /**
   * `selectPath` leaves path mode and selects the first entry; with an empty
   * typed path the shown path stays and nothing is loaded, otherwise the
   * typed path becomes the shown path and its listing is loaded; nothing
   * else changes.
   */
  lemma SelectPathLeavesPathMode(s: State)
    ensures SelectPath(s).Update?
    ensures var r := SelectPath(s).next;
      && !r.pathMode && r.ix == 0
      && r.val == s.val && r.cwd == s.cwd && r.paths == s.paths && r.cache == s.cache
      && r.vis == s.vis && r.pathValue == s.pathValue
      && (s.pathValue == "" ==> r.path == s.path && SelectPath(s).effect == NoEffect)
      && (s.pathValue != "" ==> r.path == s.pathValue && SelectPath(s).effect == LoadPaths(s.pathValue))
  {
  }

  /**
   * `changePath` records the typed path and nothing else, and explores it:
   * a path ending in `/` is listed whole; otherwise its parent is listed and
   * its last segment is the query.
   */
  lemma ChangePathExplores(s: State, pathValue: string, home: string)
    ensures ChangePath(s, pathValue, home).Update?
    ensures var step := ChangePath(s, pathValue, home);
      var r := step.next;
      var full := AbsolutePath(pathValue, home);
      && r.pathValue == pathValue
      && r.val == s.val && r.cwd == s.cwd && r.path == s.path && r.paths == s.paths
      && r.cache == s.cache && r.vis == s.vis && r.ix == s.ix && r.pathMode == s.pathMode
      && (EndsWith(full, "/") ==> step.effect == ExploreDirs(full, None))
      && (!EndsWith(full, "/") ==> step.effect == ExploreDirs(Dirname(full), Some(Basename(full))))
  {
  }

  /**
   * Exploring a typed path that expands to an absolute, normalised path not
   * ending in `/` lists a directory and queries a name that join back into
   * that path.
   */
  lemma ExploreRoundTrip(pathValue: string, home: string)
    requires var full := AbsolutePath(pathValue, home);
      Absolute(full) && NoDoubleSlash(full) && !EndsWith(full, "/")
    ensures var e := Explore(pathValue, home);
      && e.query.Some? && ValidName(e.query.value)
      && Join(e.dir, e.query.value) == AbsolutePath(pathValue, home)
  {
    var full := AbsolutePath(pathValue, home);
    assert full[|full| - 1] != '/' by {
      assert full[|full| - 1..] == [full[|full| - 1]];
    }
    DirnameBasenameJoin(full);
  }

  /**
   * `select` on an empty list resets, whatever the index; an index outside
   * a non-empty list throws; an entry with an empty name changes nothing; on
   * a file it resets and asks the editor to open that file under the shown
   * path; on a directory it leaves the state and lists that directory under
   * the shown path.
   */
  lemma SelectOutcomes(s: State)
    ensures |s.paths| == 0 ==> Select(s) == Update(Reset(s), NoEffect)
    ensures |s.paths| > 0 && !(0 <= s.ix < |s.paths|) ==> Select(s).Threw?
    ensures 0 <= s.ix < |s.paths| && s.paths[s.ix].name == "" ==> Select(s) == Update(s, NoEffect)
    ensures 0 <= s.ix < |s.paths| && s.paths[s.ix].name != "" && s.paths[s.ix].file ==>
      Select(s) == Update(Reset(s), EditFile(Join(s.path, s.paths[s.ix].name), s.cwd))
    ensures 0 <= s.ix < |s.paths| && s.paths[s.ix].name != "" && !s.paths[s.ix].file ==>
      Select(s) == Update(s, ShowDir(Join(s.path, s.paths[s.ix].name), None))
  {
  }

  /**
   * Going into a directory with `select` and coming back with `jumpPrev`
   * returns to the directory one started from, for an absolute, normalised
   * path written without a trailing `/`.
   */
  lemma SelectThenJumpPrev(s: State, listing: seq<FileDir>)
    requires IndexValid(s) && |s.paths| > 0
    requires ValidName(s.paths[s.ix].name) && !s.paths[s.ix].file
    requires Absolute(s.path) && NoDoubleSlash(s.path) && DropTrailingSlash(s.path) == s.path
    ensures var child := Join(s.path, s.paths[s.ix].name);
      && Select(s) == Update(s, ShowDir(child, None))
      && JumpPrev(Show(s, listing, child, None).next) == Update(Show(s, listing, child, None).next, ShowDir(s.path, None))
  {
    ParentOfChild(s.path, s.paths[s.ix].name);
  }

  /**
   * In path mode, moving with `nextPath` keeps the listed directory: after
   * the move, any entry name is joined onto the same directory as before.
   */
  lemma NextPathKeepsListedDir(s: State, home: string, m: string)
    requires IndexValid(s) && |s.paths| > 0
    requires forall e :: e in s.paths ==> ValidName(e.name)
    requires Absolute(ListedDir(s.pathValue, home)) && NoDoubleSlash(ListedDir(s.pathValue, home))
    requires ValidName(m)
    ensures NextPath(s, home).Update? && NextPath(s, home).effect == NoEffect
    ensures var r := NextPath(s, home).next;
      && r.ix == NextIndex(s.ix, |s.paths|)
      && Basename(r.pathValue) == s.paths[r.ix].name
      && Dirname(r.pathValue) == DropTrailingSlash(ListedDir(s.pathValue, home))
      && Join(ListedDir(r.pathValue, home), m) == Join(ListedDir(s.pathValue, home), m)
      && r.val == s.val && r.cwd == s.cwd && r.path == s.path && r.paths == s.paths
      && r.cache == s.cache && r.vis == s.vis && r.pathMode == s.pathMode
  {
    var d := ListedDir(s.pathValue, home);
    var n := s.paths[NextIndex(s.ix, |s.paths|)].name;
    assert s.paths[NextIndex(s.ix, |s.paths|)] in s.paths;
    JoinChild(d, n);
    var p := Join(d, n);
    assert AbsolutePath(p, home) == p;
    DirnameOfChild(d, n);
    BasenameOfChild(d, n);
    JoinIgnoresTrailingSlash(d, m);
  }

  /** The same for `prevPath`. */
  lemma PrevPathKeepsListedDir(s: State, home: string, m: string)
    requires IndexValid(s) && |s.paths| > 0
    requires forall e :: e in s.paths ==> ValidName(e.name)
    requires Absolute(ListedDir(s.pathValue, home)) && NoDoubleSlash(ListedDir(s.pathValue, home))
    requires ValidName(m)
    ensures PrevPath(s, home).Update? && PrevPath(s, home).effect == NoEffect
    ensures var r := PrevPath(s, home).next;
      && r.ix == PrevIndex(s.ix, |s.paths|)
      && Basename(r.pathValue) == s.paths[r.ix].name
      && Dirname(r.pathValue) == DropTrailingSlash(ListedDir(s.pathValue, home))
      && Join(ListedDir(r.pathValue, home), m) == Join(ListedDir(s.pathValue, home), m)
      && r.val == s.val && r.cwd == s.cwd && r.path == s.path && r.paths == s.paths
      && r.cache == s.cache && r.vis == s.vis && r.pathMode == s.pathMode
  {
    var d := ListedDir(s.pathValue, home);
    var n := s.paths[PrevIndex(s.ix, |s.paths|)].name;
    assert s.paths[PrevIndex(s.ix, |s.paths|)] in s.paths;
    JoinChild(d, n);
    var p := Join(d, n);
    assert AbsolutePath(p, home) == p;
    DirnameOfChild(d, n);
    BasenameOfChild(d, n);
    JoinIgnoresTrailingSlash(d, m);
  }

  /**
   * The corrected `completePath` descends: the completed path is explored
   * as a directory, and that directory is the selected entry inside the
   * directory whose listing was shown.
   */
  lemma CompletePathDescends(s: State, home: string)
    requires 0 <= s.ix < |s.paths|
    requires Absolute(AbsolutePath(s.pathValue, home))
    ensures CompletePath(s, home).Update?
    ensures var r := CompletePath(s, home);
      var child := Join(ListedDir(s.pathValue, home), s.paths[s.ix].name) + "/";
      && r.next.pathValue == child && r.next.ix == 0
      && ListedDir(r.next.pathValue, home) == child
      && r.effect == ExploreDirs(child, None)
      && r.next.val == s.val && r.next.cwd == s.cwd && r.next.path == s.path && r.next.paths == s.paths
      && r.next.cache == s.cache && r.next.vis == s.vis && r.next.pathMode == s.pathMode
  {
    var d := ListedDir(s.pathValue, home);
    ListedDirAbsolute(s.pathValue, home);
    var child := Join(d, s.paths[s.ix].name) + "/";
    assert Absolute(child);
    assert CompletePath(s, home) == Update(s.(ix := 0, pathValue := child), Explore(child, home));
    DirectoryExploredWhole(child, home);
  }

  /** The directory listed for a typed path that expands to an absolute path is absolute. */
  lemma ListedDirAbsolute(pathValue: string, home: string)
    requires Absolute(AbsolutePath(pathValue, home))
    ensures Absolute(ListedDir(pathValue, home))
  {
    var full := AbsolutePath(pathValue, home);
    if !EndsWith(full, "/") {
      DirnameAbsolute(full);
    }
  }

  /** A typed absolute path ending in `/` is its own listed directory and is explored whole. */
  lemma DirectoryExploredWhole(p: string, home: string)
    requires Absolute(p) && EndsWith(p, "/")
    ensures ListedDir(p, home) == p
    ensures Explore(p, home) == ExploreDirs(p, None)
  {
    AbsolutePathOfAbsolute(p, home);
  }

  /**
   * `completePath` as written does nothing on an empty list and throws on an
   * index outside a non-empty one; otherwise it types the selected entry,
   * with a trailing `/`, inside the parent of the expanded typed path,
   * selects the first entry, explores that directory whole, and changes
   * nothing else.
   */
  lemma CompletePathAsWrittenSteps(s: State, home: string)
    ensures |s.paths| == 0 ==> CompletePathAsWritten(s, home) == Update(s, NoEffect)
    ensures |s.paths| > 0 && !(0 <= s.ix < |s.paths|) ==> CompletePathAsWritten(s, home).Threw?
    ensures 0 <= s.ix < |s.paths| ==>
      var r := CompletePathAsWritten(s, home);
      var next := Join(Dirname(AbsolutePath(s.pathValue, home)), s.paths[s.ix].name) + "/";
      && r.Update?
      && r.next.pathValue == next && r.next.ix == 0
      && r.effect == ExploreDirs(AbsolutePath(next, home), None)
      && r.next.val == s.val && r.next.cwd == s.cwd && r.next.path == s.path && r.next.paths == s.paths
      && r.next.cache == s.cache && r.next.vis == s.vis && r.next.pathMode == s.pathMode
  {
    if 0 <= s.ix < |s.paths| {
      var next := Join(Dirname(AbsolutePath(s.pathValue, home)), s.paths[s.ix].name) + "/";
      assert CompletePathAsWritten(s, home) == Update(s.(ix := 0, pathValue := next), Explore(next, home));
      TrailingSlashExploredWhole(next, home);
    }
  }

  /** A typed path ending in `/` still ends in `/` once expanded, so it is explored whole. */
  lemma TrailingSlashExploredWhole(p: string, home: string)
    requires EndsWith(p, "/")
    ensures Explore(p, home) == ExploreDirs(AbsolutePath(p, home), None)
  {
    AbsolutePathKeepsTrailingSlash(p, home);
  }

  /**
   * `completePath` as written climbs out of a directory typed with a
   * trailing `/`: with "/a/b/" typed, the listing shown is that of /a/b,
   * but completing its entry "c" gives "/a/c/" instead of "/a/b/c/".
   */
  lemma CompletePathAsWrittenClimbs()
    ensures var s := Initial.(pathValue := "/a/b/", paths := [FileDir("c", false, true)]);
      && ListedDir(s.pathValue, "/h") == "/a/b/"
      && CompletePathAsWritten(s, "/h").next.pathValue == "/a/c/"
      && CompletePath(s, "/h").next.pathValue == "/a/b/c/"
  {
    var s := Initial.(pathValue := "/a/b/", paths := [FileDir("c", false, true)]);
    assert AbsolutePath("/a/b/", "/h") == "/a/b/" by {
      assert "/a/b/"[0] != '~';
    }
    assert EndsWith("/a/b/", "/");
    ParentSpelledWithSlash();
    ChildOfParent();
    ChildOfTyped();
  }

  /** `dirname` ignores the trailing `/` of "/a/b/" and gives its parent. */
  lemma ParentSpelledWithSlash()
    ensures Dirname("/a/b/") == "/a"
  {
  }

  /** Joining "c" onto the parent "/a" inserts one separator. */
  lemma ChildOfParent()
    ensures Join("/a", "c") == "/a/c"
  {
    assert "/a" + "/" + "c" == "/a/c";
    assert NoDoubleSlash("/a/c");
    CollapseIdentity("/a/c");
  }

  /** Joining "c" onto "/a/b/" collapses the doubled separator. */
  lemma ChildOfTyped()
    ensures Join("/a/b/", "c") == "/a/b/c"
  {
    assert NoDoubleSlash("/a/b/");
    CollapseJunction("/a/b/", "c");
    assert "/a/b/" + "c" == "/a/b/c";
  }

  /** The two versions of `completePath` differ only when the typed path ends in `/`. */
  lemma CompletePathAgreesWithoutTrailingSlash(s: State, home: string)
    requires !EndsWith(AbsolutePath(s.pathValue, home), "/")
    ensures CompletePathAsWritten(s, home) == CompletePath(s, home)
  {
  }
}
