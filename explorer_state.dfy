/**
 * The explorer component's state record, the asynchronous work a transition
 * may start, and the index arithmetic shared by the selection-moving
 * transitions.
 */
module ExplorerState {
  import opened Wrappers
  import opened Listing

  /**
   * The component state: the query `val`, the working directory `cwd`, the
   * directory shown (`path`), the entries shown (`paths`) and the full
   * listing they were narrowed from (`cache`), visibility, the selected
   * index, and the path-entry mode with its text.
   */
  datatype State = State(
    val: string,
    cwd: string,
    path: string,
    paths: seq<FileDir>,
    cache: seq<FileDir>,
    vis: bool,
    ix: int,
    pathMode: bool,
    pathValue: string)

  const Initial := State("", "", "", [], [], false, 0, false, "")

  /** The state merged with `resetState`: query, path and index cleared, hidden. */
  function Reset(s: State): State {
    s.(val := "", path := "", vis := false, ix := 0)
  }

  /**
   * Work a transition starts but does not wait for. Each one finishes by
   * dispatching another transition (see `Explorer.Resume`), except `EditFile`,
   * which only asks the editor to open a file.
   */
  datatype Effect =
    | NoEffect
      /** `cmd("e " + pathRelativeToCwd(file, relativeTo))` */
    | EditFile(file: string, relativeTo: string)
      /** `getDirFiles(path)`, then `show({ path, paths: sortDirFiles(..), cwd })` */
    | ShowDir(path: string, cwd: Option<string>)
      /** `getDirFiles(path)`, then `updatePaths(sortDirFiles(..))` */
    | LoadPaths(path: string)
      /** `pathExplore`: `getDirs(dir)`, drop ignored names, fuzzy-match `query` if any, then `updatePaths` */
    | ExploreDirs(dir: string, query: Option<string>)

  /**
   * What a transition does: the merged new state and the work it starts, or
   * a TypeError thrown while destructuring a missing entry (the state is
   * then left as it was).
   */
  datatype Step = Update(next: State, effect: Effect) | Threw

  /** What the transitions read besides the state: `$HOME`, the ignore lists and the fuzzy matcher. */
  datatype Env = Env(home: string, ignored: Ignored, fuzzy: Fuzzy)

  /** How far `down` and `up` move the selection. */
  const PageSize := 17

  /** The selected entry is a real entry, or the list is empty and nothing is selected. */
  predicate IndexValid(s: State) {
    if |s.paths| == 0 then s.ix == 0 else 0 <= s.ix < |s.paths|
  }

  /** The index after `next` (and `nextPath`): one on, wrapping from the last entry to the first. */
  function NextIndex(ix: int, n: nat): (r: int)
    ensures 0 <= ix < n ==> 0 <= r < n && r == (ix + 1) % n
    ensures ix == n - 1 ==> r == 0
  {
    if ix + 1 >= n then 0 else ix + 1
  }

  /**
   * The index after `prev` (and `prevPath`): one back, wrapping from the
   * first entry to the last; on an empty list that is -1.
   */
  function PrevIndex(ix: int, n: nat): (r: int)
    ensures 0 <= ix < n ==> 0 <= r < n && r == (ix - 1) % n
    ensures ix == 0 ==> r == n - 1
  {
    if ix - 1 < 0 then n - 1 else ix - 1
  }

  /**
   * The index after `down`: a page on, but not past the last entry; on an
   * empty list that is -1.
   */
  function DownIndex(ix: int, n: nat): (r: int)
    ensures r <= ix + PageSize && r <= n - 1
    ensures r == ix + PageSize || r == n - 1
    ensures 0 <= ix < n ==> ix <= r < n
  {
    if ix + PageSize < n - 1 then ix + PageSize else n - 1
  }

  /** The index after `up`: a page back, but not before the first entry. */
  function UpIndex(ix: int): (r: int)
    ensures 0 <= r && ix - PageSize <= r
    ensures r == 0 || r == ix - PageSize
    ensures 0 <= ix ==> r <= ix
  {
    if ix - PageSize > 0 then ix - PageSize else 0
  }
}
