# Explorer state machine (veonim file explorer)

This project models the file explorer component of veonim
(`src/components/explorer.ts`): the state record it renders, the
transitions in its `actions` object, the two pure helpers `sortDirFiles`
and `absolutePath`, and the running component whose state the UI
framework overwrites with each transition's partial result.

Layout:

- `wrappers.dfy`: `Option`.
- `paths.dfy` (`Paths`): `absolutePath` and the parts of Node's POSIX
  `path` module the explorer calls (`dirname`, `basename`, `join`, and
  `jumpPrev`'s split, pop and rejoin). `path_lemmas.dfy` (`PathLemmas`) proves how they
  fit together.
- `listing.dfy` (`Listing`): `FileDir`, the ignore lists, `filter`,
  `sortDirFiles` and the filtering half of `pathExplore`. `listing_lemmas.dfy`
  (`ListingLemmas`) characterises them.
- `explorer_state.dfy` (`ExplorerState`): the state record, the effects a
  transition starts (directory reads, opening a file), the `Step` a
  transition yields, and the index arithmetic of `next`, `prev`, `down`
  and `up`.
- `actions.dfy` (`Actions`): one function per reducer. A reducer's partial object,
  merged into the state, is a datatype update. A reducer that returns
  nothing leaves the state unchanged. A reducer that destructures a missing
  entry (`s.paths[ix]` out of range) throws a TypeError: that is `Threw`,
  and the state stays as it was.
- `explorer.dfy` (`Explorer`): the `Action` datatype, the dispatcher `React`, and
  `Resume`, which gives the action an async continuation dispatches
  (`show`, `updatePaths`). It also holds the class `ExplorerApp`, which holds
  the state and the reassignable ignore lists. `action_lemmas.dfy` and
  `explorer_lemmas.dfy` prove the transition properties.

Inputs the code reads from outside the file are parameters:

- `$HOME` (`home`).
- The configured ignore lists (`Ignored`; `ExplorerApp.SetIgnored` models the
  configuration callback).
- The fuzzy matcher of fuzzaldrin-plus (`fuzzy`: any function of the
  candidate list and the query).
- The editor's cwd, buffer type and `expand('%:p:h')` result.
- The listings that `getDirFiles`/`getDirs` return.

## Model

| member | source | states |
|---|---|---|
| Paths.AbsolutePath | src/components/explorer.ts:46 | a leading `~/` becomes `$HOME/`: the result starts with `$HOME/`, and putting `~/` back in its place gives the input; every character after the first two keeps its distance from the end of the string; any other string is returned unchanged |
| PathLemmas.AbsolutePathIdempotent | src/components/explorer.ts:46 | with a home directory not starting with `~`, expanding an expanded path changes nothing |
| Listing.Filter | src/components/explorer.ts:41-42 | `filter` keeps only elements that satisfy the test, never more than the input |
| Listing.SortDirFiles | src/components/explorer.ts:40-44 | an entry is in the result iff it is a directory whose name is not in the ignored dirs or a file whose name is not in the ignored files; the first group holds only such directories, the rest only such files |
| ListingLemmas.FilterCount | src/components/explorer.ts:41-42 | a filter keeps every wanted element exactly as often as the input holds it, and drops every other |
| ListingLemmas.FilterSubsequence | src/components/explorer.ts:41-42 | a filter keeps the input order |
| ListingLemmas.SortDirFilesGroups | src/components/explorer.ts:40-44 | the result is the kept directories then the kept files, each group in input order, with multiplicities |
| ListingLemmas.SortDirFilesIdempotent | src/components/explorer.ts:40-44 | when no entry is both a file and a directory, sorting a sorted listing changes nothing |
| ListingLemmas.ExploreCompleteListsKeptDirs | src/components/explorer.ts:48-56 | `pathExplore` on a path ending in `/` lists exactly the non-ignored directories, in listing order |
| Actions.Explore | src/components/explorer.ts:48-53 | `pathExplore` has no fuzzy query exactly when the expanded path ends in `/`, and then reads that path; otherwise it reads the path's `dirname` and queries its `basename` |
| ActionLemmas.ExploreRoundTrip | src/components/explorer.ts:48-53 | for a typed path that expands to an absolute path with no repeated `/` and no trailing `/`, the query is an entry name, and joining it onto the directory read gives the expanded path back |
| PathLemmas.DirnameBasenameJoin | src/components/explorer.ts:51-52 | for an absolute path with no repeated `/` and no trailing `/`, `basename` is an entry name, and `join(dirname(p), basename(p))` is `p` |
| PathLemmas.BasenameOfChild | src/components/explorer.ts:52 | `basename(join(dir, name))` is the name again |
| ExplorerState.NextIndex | src/components/explorer.ts:167 | `next` moves a valid index cyclically (`(ix + 1) mod n`), staying in range; from the last index it goes to 0 |
| ExplorerState.PrevIndex | src/components/explorer.ts:168 | `prev` moves a valid index cyclically (`(ix - 1) mod n`), staying in range; from 0 it goes to `n - 1`, which is -1 on an empty list |
| ExplorerState.DownIndex | src/components/explorer.ts:154-157 | `down` gives `min(ix + 17, n - 1)`; a valid index stays valid and does not move back; on an empty list it is -1 |
| ExplorerState.UpIndex | src/components/explorer.ts:159-162 | `up` gives `max(ix - 17, 0)`; never negative and never past the index it started from |
| ActionLemmas.NextPrevInverse | src/components/explorer.ts:167-168 | `prev` undoes `next` and `next` undoes `prev` on a valid index |
| ActionLemmas.NextThenPrev | src/components/explorer.ts:167-168 | on a non-empty list, `next` then `prev` gives back the same state |
| ActionLemmas.PagingDownReachesLast | src/components/explorer.ts:154-157 | `k` presses of `down` reach the last entry once `17k` covers the distance, and stay there |
| ActionLemmas.PagingUpReachesFirst | src/components/explorer.ts:159-162 | `k` presses of `up` reach the first entry once `17k` covers the index |
| ActionLemmas.PagingStaysInRange | src/components/explorer.ts:154-162 | on a non-empty list with a valid index, `down` and `up` keep it valid and move it by at most a page |
| ActionLemmas.HideResets | src/components/explorer.ts:58 | `hide` sets query and path to empty, hides, selects index 0, and changes nothing else |
| ActionLemmas.ShowDisplays | src/components/explorer.ts:144-151 | `show` makes the explorer visible with the supplied path and listing (also the cache), query empty, index 0; the cwd changes only to a non-empty supplied one |
| ActionLemmas.ChangeNarrows | src/components/explorer.ts:125-128 | `change` records the query and selects index 0, starts nothing and changes nothing else. An empty query restores the cache. A non-empty one shows `sortDirFiles` of the fuzzy matches among the entries shown, so only entries already shown and not ignored, directories first |
| ActionLemmas.CtrlGEntersPathMode | src/components/explorer.ts:67 | `ctrlG` enters path mode with empty typed path and query and index 0; nothing else changes |
| ActionLemmas.NormalModeLeavesPathMode | src/components/explorer.ts:78 | `normalMode` leaves path mode; nothing else changes |
| ActionLemmas.SelectPathLeavesPathMode | src/components/explorer.ts:81-85 | `selectPath` leaves path mode at index 0; an empty typed path keeps the shown path and loads nothing, otherwise the typed path is shown and loaded; nothing else changes |
| ActionLemmas.ChangePathExplores | src/components/explorer.ts:87-90 | `changePath` records the typed path and changes nothing else; it explores the expanded path whole when it ends in `/`, otherwise its `dirname` with its `basename` as the query |
| ActionLemmas.SelectOutcomes | src/components/explorer.ts:110-123 | `select` resets on an empty list whatever the index; an index outside a non-empty list throws; an entry with an empty name changes nothing and starts nothing; on a file it resets and opens the file under the shown path; on a directory it keeps the state and lists the directory |
| ActionLemmas.SelectThenJumpPrev | src/components/explorer.ts:137-142 | entering a directory with `select` and then `jumpPrev` lists the directory started from |
| ActionLemmas.NextPathKeepsListedDir | src/components/explorer.ts:92-99 | `nextPath` moves the index cyclically; the new typed path's `basename` is the newly selected entry and its `dirname` is the listed directory, so the directory onto which names are joined stays the same; nothing else changes and nothing starts |
| ActionLemmas.PrevPathKeepsListedDir | src/components/explorer.ts:101-108 | the same for `prevPath`, one entry back |
| ActionLemmas.CompletePathDescends | src/components/explorer.ts:69-76 | (corrected) the completed path is the selected entry inside the listed directory, with a trailing `/`, and is explored as that directory; only the typed path and the index change |
| ActionLemmas.CompletePathAsWrittenSteps | src/components/explorer.ts:69-76 | (as written) an empty list changes nothing; an index outside a non-empty list throws; otherwise the typed path becomes the selected entry inside the parent of the expanded typed path, with a trailing `/`, the index goes to 0, that directory is explored whole, and nothing else changes |
| ActionLemmas.CompletePathAsWrittenClimbs | src/components/explorer.ts:71-73 | (as written) with `/a/b/` typed and entry `c` listed, completion gives `/a/c/` instead of `/a/b/c/` |
| ActionLemmas.CompletePathAgreesWithoutTrailingSlash | src/components/explorer.ts:71 | the written and corrected completion agree whenever the typed path does not end in `/` |
| PathLemmas.JoinChild | src/components/explorer.ts:97 | `join(dir, name)` of a normalised absolute directory is the directory, one `/`, and the name |
| PathLemmas.DirnameOfChild | src/components/explorer.ts:95 | `dirname(join(dir, name))` is the directory again, without its trailing `/` |
| PathLemmas.ParentOfChild | src/components/explorer.ts:138-140 | `jumpPrev`'s split, pop and join of `join(dir, name)` is the directory again |
| PathLemmas.JoinIgnoresTrailingSlash | src/components/explorer.ts:97 | joining onto a directory does not depend on its trailing `/` |
| ExplorerLemmas.ReactIndexValid | src/components/explorer.ts:62-169 | from a valid selection, an action throws iff it is `nextPath`/`prevPath` on an empty list. Otherwise the selection stays valid unless the action is `prev` or `down` on an empty list, or `updatePaths` to a list too short for the index |
| ExplorerLemmas.SelectDirectoryThenLoad | src/components/explorer.ts:121-122 | selecting a directory, once its listing arrives, shows the sorted listing under the new path with the cwd kept and a valid selection |
| ExplorerLemmas.CtrlHShowsCwd | src/components/explorer.ts:130-135 | `ctrlH` changes nothing until the listing arrives; then the editor's cwd is shown as the path and becomes the cwd (unless empty), and its sorted listing becomes the entries and the cache |
| ExplorerLemmas.OpenExplorerShows | src/components/explorer.ts:236-244 | the `explorer` command changes nothing until the listing arrives; then it shows the current file's directory (the cwd in a terminal) with its sorted listing, and the editor's cwd becomes the cwd (unless empty) |
| Explorer.ExplorerApp.Dispatch | src/components/explorer.ts:234 | the framework runs the action's reducer as written (`completePath` included) and replaces the state with its merged result; a throwing reducer changes nothing and starts nothing |
| Explorer.ExplorerApp.Complete | src/components/explorer.ts:122 | a completed directory read dispatches its continuation against the current state and ignore lists |
| Explorer.ExplorerApp.SetIgnored | src/components/explorer.ts:35-38 | a configuration change replaces the ignore lists and leaves the state alone |
| Explorer.ExplorerApp.constructor | src/components/explorer.ts:23-33 | the component starts from the initial state record |

## Findings

| source | as written | input that shows it | evidently intended | confidence | as-written member | corrected member |
|---|---|---|---|---|---|---|
| src/components/explorer.ts:71 | `completePath` joins the selected name onto `dirname(absolutePath(pathValue))` | typed path `/a/b/`, whose listing `[c]` is shown: completion gives `/a/c/` | join onto the listed directory, as `nextPath`/`prevPath` (lines 94-97) and `pathExplore` (lines 50-51) do: `/a/b/c/` | medium; not executed | Actions.CompletePathAsWritten, ActionLemmas.CompletePathAsWrittenClimbs | Actions.CompletePath, ActionLemmas.CompletePathDescends |

The dispatcher `Explorer.React` runs `Actions.CompletePathAsWritten`, as the component does. `Actions.CompletePath` is the corrected definition, and `ActionLemmas.CompletePathDescends` proves the intended property about it.

## Left out

- `src/workers/neovim-error-reader.ts` is not part of this model. It spawns a process, pipes streams and wires an RPC layer whose code is not shown.
- Scrolling of the list element (`scrollTop` in `down`, `up`, `top`, `bottom`) and the `view` rendering are DOM side effects with no state in the record. `top` and `bottom` are transitions that change nothing.
- The contents of directory reads (`getDirFiles`, `getDirs`) are inputs to `Resume`/`Complete`. The model does not track the order in which pending reads complete.
- `pathRelativeToCwd` (code not shown) is not computed: `EditFile` carries the joined file path and the cwd it is made relative to. `pathRelativeToHome` is used only by the view.
- fuzzaldrin-plus `filter` is a parameter with no assumed behaviour, except in `ChangeNarrows`, which assumes the matcher returns only candidates.
- Node's `path.join`/normalisation resolves `.` and `..` segments. `Paths.Join` and `Paths.ParentBySplit` only collapse repeated `/` and handle a lone `.` or empty first argument.
- ActionLemmas.NextPathKeepsListedDir: proved only for a listed directory that is absolute and has no repeated `/`, and for entry names without `/`.
- ActionLemmas.PrevPathKeepsListedDir: the same restriction.
- ActionLemmas.SelectThenJumpPrev: proved only for an absolute shown path without repeated or trailing `/`. `jumpPrev` on a path typed with `~/` (not expanded by `selectPath`) gives a different answer, which is not claimed here.
- ActionLemmas.CompletePathDescends: proved only when the expanded typed path is absolute.
- The editor command `explorer` and `ctrlH` read `current` and call `expand('%:p:h')`. Those values are parameters of `Actions.OpenExplorer` and `Actions.CtrlH`.
- Paths.AbsolutePath: `$HOME` is inserted literally. `String.replace` would expand the replacement patterns `$&`, `` $` ``, `$'` and `$$` if `$HOME` contained them; the model assumes it contains none.
- JavaScript numbers are modelled as unbounded integers. The index never leaves the small range where that differs.
