/**
 * Directory listings as the explorer shows them: the `FileDir` entry, the
 * configured ignore lists, `sortDirFiles` and the filtering half of
 * `pathExplore`.
 */
module Listing {
  import opened Wrappers

  /** One entry of a directory listing. A listing may mark an entry as both. */
  datatype FileDir = FileDir(name: string, file: bool, dir: bool)

  /** `explorer.ignore.dirs` and `explorer.ignore.files` from the configuration. */
  datatype Ignored = Ignored(dirs: seq<string>, files: seq<string>)

  /** The fuzzy matcher (`filter` from fuzzaldrin-plus keyed on `name`): any function of the list and the query. */
  type Fuzzy = (seq<FileDir>, string) -> seq<FileDir>

  /** `Array.prototype.filter`: the elements satisfying `keep`, in their original order. */
  function Filter<T>(s: seq<T>, keep: T -> bool): (r: seq<T>)
    ensures |r| <= |s|
    ensures forall x :: x in r ==> x in s && keep(x)
  {
    if s == [] then [] else (if keep(s[0]) then [s[0]] else []) + Filter(s[1..], keep)
  }

  function KeepDir(ignored: Ignored): FileDir -> bool {
    (f: FileDir) => f.dir && f.name !in ignored.dirs
  }

  function KeepFile(ignored: Ignored): FileDir -> bool {
    (f: FileDir) => f.file && f.name !in ignored.files
  }

  /**
   * `sortDirFiles`: the directories whose names are not ignored, then the
   * files whose names are not ignored. Nothing that is kept by neither test
   * survives, every kept directory comes before every kept file.
   */
  function SortDirFiles(fs: seq<FileDir>, ignored: Ignored): (r: seq<FileDir>)
    ensures forall f :: f in r <==> f in fs && (KeepDir(ignored)(f) || KeepFile(ignored)(f))
    ensures var k := |Filter(fs, KeepDir(ignored))|;
      && k <= |r|
      && (forall i :: 0 <= i < k ==> r[i].dir && r[i].name !in ignored.dirs)
      && (forall i :: k <= i < |r| ==> r[i].file && r[i].name !in ignored.files)
  {
    FilterMembers(fs, KeepDir(ignored));
    FilterMembers(fs, KeepFile(ignored));
    var dirs := Filter(fs, KeepDir(ignored));
    var files := Filter(fs, KeepFile(ignored));
    assert forall i :: 0 <= i < |dirs| ==> dirs[i] in dirs;
    assert forall i :: 0 <= i < |files| ==> files[i] in files;
    dirs + files
  }

  /** Membership in a filtered sequence, both directions. */
  lemma {:induction false} FilterMembers<T>(s: seq<T>, keep: T -> bool)
    ensures forall x :: x in Filter(s, keep) <==> x in s && keep(x)
  {
    if s != [] {
      FilterMembers(s[1..], keep);
      assert s == [s[0]] + s[1..];
    }
  }

  /**
   * The `pathExplore` continuation: the directories under `dir` whose names
   * are not ignored, fuzzy-matched against `query` when the typed path did
   * not end in `/`.
   */
  function ExploreResult(dirs: seq<FileDir>, query: Option<string>, ignored: Ignored, fuzzy: Fuzzy): seq<FileDir> {
    var good := Filter(dirs, (d: FileDir) => d.name !in ignored.dirs);
    if query.None? then good else fuzzy(good, query.value)
  }
}
