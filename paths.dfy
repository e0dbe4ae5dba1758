/**
 * Path strings as the explorer handles them: `absolutePath` (the `~/`
 * expansion in explorer.ts) and the parts of Node's POSIX `path` module that
 * the explorer calls (`dirname`, `basename`, `join`, and the
 * `split(sep)` / `pop` / `join(sep, ...)` idiom of `jumpPrev`).
 *
 * `Dirname` and `Basename` follow Node's POSIX algorithms exactly.
 * `Join` normalises only by collapsing runs of `/`; it does not resolve
 * `.` or `..` segments (except a lone `.` as first argument).
 */
module Paths {
  import opened Wrappers

  predicate StartsWith(p: string, prefix: string) {
    |prefix| <= |p| && p[..|prefix|] == prefix
  }

  predicate EndsWith(p: string, suffix: string) {
    |suffix| <= |p| && p[|p| - |suffix|..] == suffix
  }

  /** An absolute path: one that begins at the root. */
  predicate Absolute(p: string) {
    |p| > 0 && p[0] == '/'
  }

  /** A directory-entry name as a listing returns it: non-empty, no separator. */
  predicate ValidName(n: string) {
    n != "" && '/' !in n
  }

  /** No two separators in a row (what Node's normalisation guarantees). */
  predicate NoDoubleSlash(p: string) {
    forall i :: 0 < i < |p| ==> !(p[i - 1] == '/' && p[i] == '/')
  }

  /**
   * `absolutePath`: a leading `~/` becomes `home + "/"`; nothing else in the
   * string is touched, and a string without that prefix is returned as is.
   * Stated as an inverse: putting `~/` back in place of `home + "/"` gives
   * the input; and by position: every character after the first two keeps
   * its distance from the end of the string.
   */
  function AbsolutePath(p: string, home: string): (r: string)
    ensures StartsWith(p, "~/") ==> StartsWith(r, home + "/") && "~/" + r[|home| + 1..] == p
    ensures !StartsWith(p, "~/") ==> r == p
    ensures |r| >= |p| - 2
    ensures forall i :: 2 <= i < |p| ==> r[|r| - |p| + i] == p[i]
  {
    if StartsWith(p, "~/") then home + "/" + p[2..] else p
  }

  /** Collapses every run of `/` to a single `/`. */
  function Collapse(p: string): (r: string)
    ensures |r| <= |p|
    ensures p != [] ==> r != [] && r[0] == p[0]
    ensures NoDoubleSlash(r)
    decreases |p|
  {
    if |p| < 2 then p
    else if p[0] == '/' && p[1] == '/' then Collapse(p[1..])
    else [p[0]] + Collapse(p[1..])
  }

  /** Node's `path.join(a, b)` for the two-argument calls the explorer makes. */
  function Join(a: string, b: string): string {
    if b == "" then (if a == "" then "." else Collapse(a))
    else if a == "" || a == "." then Collapse(b)
    else Collapse(a + "/" + b)
  }

  /** The largest index `i` with `lo <= i < |t|` and `t[i] == '/'`, if any. */
  function LastSlash(t: string, lo: nat): (r: Option<nat>)
    ensures r.Some? ==> lo <= r.value < |t| && t[r.value] == '/'
    ensures r.Some? ==> forall j :: r.value < j < |t| ==> t[j] != '/'
    ensures r.None? ==> forall j :: lo <= j < |t| ==> t[j] != '/'
    decreases |t|
  {
    if |t| <= lo then None
    else if t[|t| - 1] == '/' then Some(|t| - 1)
    else LastSlash(t[..|t| - 1], lo)
  }

  /** Drops trailing separators, but never the first character. */
  function TrimTrailingSlashes(p: string): (t: string)
    requires p != []
    ensures 0 < |t| <= |p| && t == p[..|t|]
    ensures |t| > 1 ==> t[|t| - 1] != '/'
    ensures forall j :: |t| <= j < |p| ==> p[j] == '/'
    decreases |p|
  {
    if |p| > 1 && p[|p| - 1] == '/' then TrimTrailingSlashes(p[..|p| - 1]) else p
  }

  /** Drops every trailing separator. */
  function StripSlashes(p: string): (t: string)
    ensures |t| <= |p| && t == p[..|t|]
    ensures t != [] ==> t[|t| - 1] != '/'
    decreases |p|
  {
    if |p| > 0 && p[|p| - 1] == '/' then StripSlashes(p[..|p| - 1]) else p
  }

  /**
   * Node's POSIX `path.dirname`: trailing separators are ignored, the result
   * is everything before the last remaining separator, "/" or "." when there
   * is none, and Node's peculiar "//" for a path like "//a".
   */
  function Dirname(p: string): string {
    if p == "" then "."
    else
      var t := TrimTrailingSlashes(p);
      match LastSlash(t, 1)
      case None => if p[0] == '/' then "/" else "."
      case Some(e) => if p[0] == '/' && e == 1 then "//" else p[..e]
  }

  /** Node's POSIX `path.basename`: the last segment, trailing separators ignored. */
  function Basename(p: string): string {
    var t := StripSlashes(p);
    match LastSlash(t, 0)
    case None => t
    case Some(k) => t[k + 1..]
  }

  /**
   * `join(sep, ...p.split(sep).slice(0, -1))`, the parent computed by
   * `jumpPrev`: the last segment is dropped and the remaining segments are
   * rejoined under the root.
   */
  function ParentBySplit(p: string): string {
    var prefix := match LastSlash(p, 0) case None => "" case Some(k) => p[..k];
    DropTrailingSlash(Collapse("/" + prefix))
  }

  function DropTrailingSlash(p: string): string {
    if |p| > 1 && p[|p| - 1] == '/' then p[..|p| - 1] else p
  }
}
