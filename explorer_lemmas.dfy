/**
 * The invariant every transition is measured against: the selection points
 * at an entry of the list, or the list is empty and the index is 0.
 * Exactly three kinds of action break it, and exactly two throw.
 */
module ExplorerLemmas {
  import opened Wrappers
  import opened Listing
  import opened ExplorerState
  import opened Explorer

  /**
   * The actions after which the selection may point outside the list:
   * `prev` and `down` on an empty list (index -1), and `updatePaths`, which
   * keeps the index when the new list is shorter.
   */
  predicate BreaksIndex(s: State, a: Action) {
    match a
    case Prev => |s.paths| == 0
    case Down => |s.paths| == 0
    case UpdatePaths(paths) => !IndexValid(s.(paths := paths))
    case _ => false
  }

  /**
   * From a state with a valid selection: an action throws exactly when it is
   * `nextPath` or `prevPath` on an empty list, and otherwise leaves the
   * selection valid exactly when it is not one of `BreaksIndex`.
   */
  lemma ReactIndexValid(s: State, a: Action, env: Env)
    requires IndexValid(s)
    ensures React(s, a, env).Threw? <==> (a.NextPath? || a.PrevPath?) && |s.paths| == 0
    ensures React(s, a, env).Update? ==> (IndexValid(React(s, a, env).next) <==> !BreaksIndex(s, a))
  {
  }

  /**
   * Entering a directory and completing its listing: the listing shown is
   * the sorted directory contents, the path is the directory's, and the
   * selection is valid again.
   */
  lemma SelectDirectoryThenLoad(s: State, env: Env, listing: seq<FileDir>)
    requires IndexValid(s) && |s.paths| > 0
    requires s.paths[s.ix].name != "" && !s.paths[s.ix].file
    ensures React(s, Select, env).Update?
    ensures var step := React(s, Select, env);
      && step.next == s
      && step.effect.ShowDir?
      && Resume(step.effect, listing, env).Some?
      && var r := React(s, Resume(step.effect, listing, env).value, env);
      && r.Update?
      && r.next.path == step.effect.path && r.next.vis
      && r.next.paths == SortDirFiles(listing, env.ignored) == r.next.cache
      && r.next.cwd == s.cwd
      && IndexValid(r.next)
  {
  }

  /**
   * `ctrlH` changes nothing at first and lists the editor's cwd; once the
   * listing arrives, that directory is shown as the path, becomes the cwd
   * (unless empty), and its sorted listing becomes the entries and the cache.
   */
  lemma CtrlHShowsCwd(s: State, env: Env, cwd: string, listing: seq<FileDir>)
    ensures React(s, CtrlH(cwd), env) == Update(s, ShowDir(cwd, Some(cwd)))
    ensures var e := React(s, CtrlH(cwd), env).effect;
      && Resume(e, listing, env).Some?
      && var r := React(s, Resume(e, listing, env).value, env);
      && r.Update? && r.effect == NoEffect
      && r.next.path == cwd && r.next.vis
      && r.next.cwd == (if cwd != "" then cwd else s.cwd)
      && r.next.paths == SortDirFiles(listing, env.ignored) == r.next.cache
      && r.next.val == "" && r.next.ix == 0 && IndexValid(r.next)
      && r.next.pathMode == s.pathMode && r.next.pathValue == s.pathValue
  {
  }

  /**
   * The `explorer` editor command shows the directory of the current file,
   * or the cwd in a terminal buffer, with the editor's cwd; the state
   * changes only once the listing arrives.
   */
  lemma OpenExplorerShows(s: State, env: Env, cwd: string, isTerminal: bool, fileDir: string, listing: seq<FileDir>)
    ensures var path := if isTerminal then cwd else fileDir;
      React(s, OpenExplorer(cwd, isTerminal, fileDir), env) == Update(s, ShowDir(path, Some(cwd)))
    ensures var path := if isTerminal then cwd else fileDir;
      var e := React(s, OpenExplorer(cwd, isTerminal, fileDir), env).effect;
      && Resume(e, listing, env).Some?
      && var r := React(s, Resume(e, listing, env).value, env);
      && r.Update? && r.effect == NoEffect
      && r.next.path == path && r.next.vis
      && r.next.cwd == (if cwd != "" then cwd else s.cwd)
      && r.next.paths == SortDirFiles(listing, env.ignored) == r.next.cache
      && r.next.val == "" && r.next.ix == 0 && IndexValid(r.next)
      && r.next.pathMode == s.pathMode && r.next.pathValue == s.pathValue
  {
  }
}
