/**
 * The explorer component as the UI framework runs it: the actions it can
 * receive, the dispatcher that applies one to the state, the continuation
 * each piece of asynchronous work dispatches when it completes, and the
 * component object whose state every dispatch overwrites.
 */
module Explorer {
  import opened Wrappers
  import opened Listing
  import opened ExplorerState
  import Actions

  /** The actions the input widgets, the editor command and the async continuations dispatch. */
  datatype Action =
    | CtrlG
    | CompletePath
    | NormalMode
    | UpdatePaths(paths: seq<FileDir>)
    | SelectPath
    | ChangePath(pathValue: string)
    | NextPath
    | PrevPath
    | Select
    | Change(val: string)
    | CtrlH(editorCwd: string)
    | JumpPrev
    | Show(paths: seq<FileDir>, path: string, cwd: Option<string>)
    | Down
    | Up
    | Top
    | Bottom
    | Hide
    | Next
    | Prev
    | OpenExplorer(editorCwd: string, isTerminal: bool, currentFileDir: string)

  /** Apply one action to the state. */
  function React(s: State, a: Action, env: Env): Step {
    match a
    case CtrlG => Actions.CtrlG(s)
    case CompletePath => Actions.CompletePathAsWritten(s, env.home)
    case NormalMode => Actions.NormalMode(s)
    case UpdatePaths(paths) => Actions.UpdatePaths(s, paths)
    case SelectPath => Actions.SelectPath(s)
    case ChangePath(pathValue) => Actions.ChangePath(s, pathValue, env.home)
    case NextPath => Actions.NextPath(s, env.home)
    case PrevPath => Actions.PrevPath(s, env.home)
    case Select => Actions.Select(s)
    case Change(val) => Actions.Change(s, val, env.ignored, env.fuzzy)
    case CtrlH(cwd) => Actions.CtrlH(s, cwd)
    case JumpPrev => Actions.JumpPrev(s)
    case Show(paths, path, cwd) => Actions.Show(s, paths, path, cwd)
    case Down => Actions.Down(s)
    case Up => Actions.Up(s)
    case Top => Actions.Scroll(s)
    case Bottom => Actions.Scroll(s)
    case Hide => Actions.Hide(s)
    case Next => Actions.Next(s)
    case Prev => Actions.Prev(s)
    case OpenExplorer(cwd, isTerminal, fileDir) => Actions.OpenExplorer(s, cwd, isTerminal, fileDir)
  }

  /**
   * The action dispatched when the work `e` completes with `listing` (what
   * `getDirFiles` or `getDirs` returned); opening a file dispatches nothing.
   */
  function Resume(e: Effect, listing: seq<FileDir>, env: Env): Option<Action> {
    match e
    case NoEffect => None
    case EditFile(_, _) => None
    case ShowDir(path, cwd) => Some(Show(SortDirFiles(listing, env.ignored), path, cwd))
    case LoadPaths(_) => Some(UpdatePaths(SortDirFiles(listing, env.ignored)))
    case ExploreDirs(_, query) => Some(UpdatePaths(ExploreResult(listing, query, env.ignored, env.fuzzy)))
  }

  /**
   * The running component: the state the framework overwrites after every
   * action, and the ignore lists that configuration changes reassign.
   */
  class ExplorerApp {
    var state: State
    var ignored: Ignored
    const home: string
    const fuzzy: Fuzzy

    constructor (home: string, ignored: Ignored, fuzzy: Fuzzy)
      ensures state == Initial && this.ignored == ignored
      ensures this.home == home && this.fuzzy == fuzzy
    {
      state := Initial;
      this.ignored := ignored;
      this.home := home;
      this.fuzzy := fuzzy;
    }

    function CurrentEnv(): Env
      reads this
    {
      Env(home, ignored, fuzzy)
    }

    /**
     * Run one action: its merged result replaces the state; an action that
     * throws leaves the state untouched and starts nothing.
     */
    method Dispatch(a: Action) returns (effect: Effect, threw: bool)
      modifies this`state
      ensures React(old(state), a, CurrentEnv()).Threw? ==> threw && state == old(state) && effect == NoEffect
      ensures React(old(state), a, CurrentEnv()).Update? ==>
        && !threw
        && state == React(old(state), a, CurrentEnv()).next
        && effect == React(old(state), a, CurrentEnv()).effect
    {
      var step := React(state, a, CurrentEnv());
      if step.Threw? {
        effect, threw := NoEffect, true;
      } else {
        state := step.next;
        effect, threw := step.effect, false;
      }
    }

    /**
     * The completion of `e` with `listing`: the continuation's action is
     * dispatched against the state as it is now, with the ignore lists as
     * they are now.
     */
    method Complete(e: Effect, listing: seq<FileDir>) returns (effect: Effect, threw: bool)
      modifies this`state
      ensures Resume(e, listing, CurrentEnv()).None? ==> state == old(state) && effect == NoEffect && !threw
      ensures Resume(e, listing, CurrentEnv()).Some? ==>
        var step := React(old(state), Resume(e, listing, CurrentEnv()).value, CurrentEnv());
        && (step.Threw? ==> threw && state == old(state) && effect == NoEffect)
        && (step.Update? ==> !threw && state == step.next && effect == step.effect)
    {
      var next := Resume(e, listing, CurrentEnv());
      if next.None? {
        effect, threw := NoEffect, false;
      } else {
        effect, threw := Dispatch(next.value);
      }
    }

    /** A configuration change reassigns the ignore lists; the state is untouched. */
    method SetIgnored(ignored: Ignored)
      modifies this`ignored
      ensures this.ignored == ignored
      ensures state == old(state)
    {
      this.ignored := ignored;
    }
  }
}
