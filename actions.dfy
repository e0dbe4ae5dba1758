/**
 * The explorer's transitions, one function per entry of `actions` in
 * explorer.ts. Each takes the current state and gives the `Step` the
 * framework applies: the partial object a reducer returns, merged into the
 * state, is written as a datatype update; a reducer that returns nothing
 * leaves the state as it is.
 */
module Actions {
  import opened Wrappers
  import opened Paths
  import opened Listing
  import opened ExplorerState

  /** The directory `pathExplore` lists for a typed path: the path itself if it ends in `/`, else its parent. */
  function ListedDir(pathValue: string, home: string): string {
    var full := AbsolutePath(pathValue, home);
    if EndsWith(full, "/") then full else Dirname(full)
  }

  /**
   * `pathExplore(path)`: a path ending in `/` is listed whole with no fuzzy
   * query; otherwise its parent is listed and its last segment is the query.
   */
  function Explore(pathValue: string, home: string): (e: Effect)
    ensures e.ExploreDirs?
    ensures e.query.None? <==> EndsWith(AbsolutePath(pathValue, home), "/")
    ensures e.query.None? ==> e.dir == AbsolutePath(pathValue, home)
    ensures e.query.Some? ==> e.dir == Dirname(AbsolutePath(pathValue, home))
    ensures e.query.Some? ==> e.query.value == Basename(AbsolutePath(pathValue, home))
  {
    var full := AbsolutePath(pathValue, home);
    if EndsWith(full, "/") then ExploreDirs(full, None)
    else ExploreDirs(Dirname(full), Some(Basename(full)))
  }

  /** `ctrlG`: enter path mode with an empty path and query. */
  function CtrlG(s: State): Step {
    Update(s.(pathMode := true, ix := 0, val := "", pathValue := ""), NoEffect)
  }

  /**
   * `completePath` as written: the selected name is joined onto
   * `dirname(absolutePath(pathValue))`, even when `pathValue` ends in `/`
   * and the listing shown is that of the path itself.
   */
  function CompletePathAsWritten(s: State, home: string): Step {
    if |s.paths| == 0 then Update(s, NoEffect)
    else if !(0 <= s.ix < |s.paths|) then Threw
    else
      var next := Join(Dirname(AbsolutePath(s.pathValue, home)), s.paths[s.ix].name) + "/";
      Update(s.(ix := 0, pathValue := next), Explore(next, home))
  }

  /**
   * `completePath`, corrected: the selected name is joined onto the
   * directory whose listing is shown, as `nextPath` and `prevPath` do, and
   * the completed directory is explored.
   */
  function CompletePath(s: State, home: string): Step {
    if |s.paths| == 0 then Update(s, NoEffect)
    else if !(0 <= s.ix < |s.paths|) then Threw
    else
      var next := Join(ListedDir(s.pathValue, home), s.paths[s.ix].name) + "/";
      Update(s.(ix := 0, pathValue := next), Explore(next, home))
  }

  /** `normalMode`: leave path mode. */
  function NormalMode(s: State): Step {
    Update(s.(pathMode := false), NoEffect)
  }

  /** `updatePaths`: replace the entries shown (the index is kept). */
  function UpdatePaths(s: State, paths: seq<FileDir>): Step {
    Update(s.(paths := paths), NoEffect)
  }

  /**
   * `selectPath`: leave path mode; a non-empty typed path becomes the path
   * shown and its listing is loaded.
   */
  function SelectPath(s: State): Step {
    if s.pathValue == "" then Update(s.(pathMode := false, ix := 0), NoEffect)
    else Update(s.(pathMode := false, path := s.pathValue, ix := 0), LoadPaths(s.pathValue))
  }

  /** `changePath`: record the typed path and explore it. */
  function ChangePath(s: State, pathValue: string, home: string): Step {
    Update(s.(pathValue := pathValue), Explore(pathValue, home))
  }

  /**
   * `nextPath`: select the next entry (cyclically) and make the typed path
   * that entry inside the listed directory; throws on an empty list.
   */
  function NextPath(s: State, home: string): Step {
    var ix := NextIndex(s.ix, |s.paths|);
    if !(0 <= ix < |s.paths|) then Threw
    else Update(s.(ix := ix, pathValue := Join(ListedDir(s.pathValue, home), s.paths[ix].name)), NoEffect)
  }

  /** `prevPath`: as `nextPath`, one entry back. */
  function PrevPath(s: State, home: string): Step {
    var ix := PrevIndex(s.ix, |s.paths|);
    if !(0 <= ix < |s.paths|) then Threw
    else Update(s.(ix := ix, pathValue := Join(ListedDir(s.pathValue, home), s.paths[ix].name)), NoEffect)
  }

  /**
   * `select`: on an empty list, reset; an entry with an empty name does
   * nothing; a file is opened in the editor and the explorer resets; a
   * directory is listed and then shown.
   */
  function Select(s: State): Step {
    if |s.paths| == 0 then Update(Reset(s), NoEffect)
    else if !(0 <= s.ix < |s.paths|) then Threw
    else
      var entry := s.paths[s.ix];
      if entry.name == "" then Update(s, NoEffect)
      else if entry.file then Update(Reset(s), EditFile(Join(s.path, entry.name), s.cwd))
      else Update(s, ShowDir(Join(s.path, entry.name), None))
  }

  /**
   * `change`: record the query and select the first entry; a non-empty query
   * narrows the entries shown by fuzzy matching and re-sorts them, an empty
   * one restores the full listing.
   */
  function Change(s: State, val: string, ignored: Ignored, fuzzy: Fuzzy): Step {
    Update(s.(val := val, ix := 0, paths := if val != "" then SortDirFiles(fuzzy(s.paths, val), ignored) else s.cache), NoEffect)
  }

  /** `ctrlH`: list the editor's working directory and show it as both path and cwd. */
  function CtrlH(s: State, cwd: string): Step {
    Update(s, ShowDir(cwd, Some(cwd)))
  }

  /** `jumpPrev`: list the parent of the path shown, then show it. */
  function JumpPrev(s: State): Step {
    Update(s, ShowDir(ParentBySplit(s.path), None))
  }

  /**
   * `show`: make the explorer visible with a fresh listing as both the
   * entries and the cache, the query and index cleared; the cwd changes only
   * when a non-empty one is supplied.
   */
  function Show(s: State, paths: seq<FileDir>, path: string, cwd: Option<string>): Step {
    var cwd' := if cwd.Some? && cwd.value != "" then cwd.value else s.cwd;
    Update(Reset(s).(path := path, paths := paths, vis := true, cache := paths, cwd := cwd'), NoEffect)
  }

  /** `down`: move the selection a page on. */
  function Down(s: State): Step {
    Update(s.(ix := DownIndex(s.ix, |s.paths|)), NoEffect)
  }

  /** `up`: move the selection a page back. */
  function Up(s: State): Step {
    Update(s.(ix := UpIndex(s.ix)), NoEffect)
  }

  /** `top` and `bottom` only scroll the list element. */
  function Scroll(s: State): Step {
    Update(s, NoEffect)
  }

  /** `hide`: merge `resetState`. */
  function Hide(s: State): Step {
    Update(Reset(s), NoEffect)
  }

  /** `next`: select the next entry, cyclically. */
  function Next(s: State): Step {
    Update(s.(ix := NextIndex(s.ix, |s.paths|)), NoEffect)
  }

  /** `prev`: select the previous entry, cyclically. */
  function Prev(s: State): Step {
    Update(s.(ix := PrevIndex(s.ix, |s.paths|)), NoEffect)
  }

  /**
   * The `explorer` editor command: show the directory of the current file,
   * or the cwd in a terminal buffer, with the editor's cwd.
   */
  function OpenExplorer(s: State, cwd: string, isTerminal: bool, currentFileDir: string): Step {
    Update(s, ShowDir(if isTerminal then cwd else currentFileDir, Some(cwd)))
  }
}
