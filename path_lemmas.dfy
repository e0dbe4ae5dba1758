/**
 * Facts about the path functions that the explorer's path-mode transitions
 * rely on: joining a listed name onto a directory and taking `dirname` (or
 * the `jumpPrev` parent) of the result gives the directory back.
 */
module PathLemmas {
  import opened Wrappers
  import opened Paths

  /** Collapsing a string that has no run of separators changes nothing. */
  lemma {:induction false} CollapseIdentity(p: string)
    requires NoDoubleSlash(p)
    ensures Collapse(p) == p
    decreases |p|
  {
    if |p| >= 2 {
      assert !(p[0] == '/' && p[1] == '/');
      assert NoDoubleSlash(p[1..]) by {
        forall i | 0 < i < |p[1..]| ensures !(p[1..][i - 1] == '/' && p[1..][i] == '/') {
          assert p[1..][i - 1] == p[i] && p[1..][i] == p[i + 1];
        }
      }
      CollapseIdentity(p[1..]);
      assert [p[0]] + p[1..] == p;
    }
  }

  /** Joining onto a directory spelled with its trailing `/`: the doubled separator is collapsed. */
  lemma {:induction false} CollapseJunction(d: string, n: string)
    requires |d| > 0 && d[|d| - 1] == '/'
    requires NoDoubleSlash(d) && '/' !in n
    ensures Collapse(d + "/" + n) == d + n
    decreases |d|
  {
    if |d| == 1 {
      assert d + "/" + n == "/" + ("/" + n);
      assert ("/" + ("/" + n))[1..] == "/" + n;
      assert NoDoubleSlash("/" + n) by {
        forall i | 0 < i < |"/" + n| ensures !(("/" + n)[i - 1] == '/' && ("/" + n)[i] == '/') {
          assert ("/" + n)[i] == n[i - 1];
        }
      }
      CollapseIdentity("/" + n);
    } else {
      var x := d + "/" + n;
      assert x[0] == d[0] && x[1] == d[1];
      assert !(d[0] == '/' && d[1] == '/');
      assert NoDoubleSlash(d[1..]) by {
        forall i | 0 < i < |d[1..]| ensures !(d[1..][i - 1] == '/' && d[1..][i] == '/') {
          assert d[1..][i - 1] == d[i] && d[1..][i] == d[i + 1];
        }
      }
      assert x[1..] == d[1..] + "/" + n;
      CollapseJunction(d[1..], n);
      assert [d[0]] + (d[1..] + n) == d + n;
    }
  }

  /** A name appended after a separator leaves that separator as the last one. */
  lemma {:induction false} LastSlashBeforeName(a: string, n: string, lo: nat)
    requires lo <= |a| && '/' !in n
    ensures LastSlash(a + "/" + n, lo) == Some(|a|)
    decreases |n|
  {
    var x := a + "/" + n;
    if n != [] {
      assert x[|x| - 1] == n[|n| - 1];
      assert x[..|x| - 1] == a + "/" + n[..|n| - 1];
      LastSlashBeforeName(a, n[..|n| - 1], lo);
    }
  }

  /**
   * The shape of `join(d, n)` for an absolute, normalised directory `d` and
   * a listed name `n`: the directory (without its trailing `/`), one
   * separator, then the name; the result is again absolute and normalised.
   */
  lemma JoinChild(d: string, n: string)
    requires Absolute(d) && NoDoubleSlash(d) && ValidName(n)
    ensures var c := DropTrailingSlash(d);
      Join(d, n) == (if c == "/" then "/" else c + "/") + n
    ensures Absolute(Join(d, n)) && NoDoubleSlash(Join(d, n))
    ensures Join(d, n)[|Join(d, n)| - 1] != '/'
  {
    var c := DropTrailingSlash(d);
    if d[|d| - 1] == '/' {
      JoinOntoSlash(d, n);
      if |d| > 1 {
        assert d == c + "/";
      }
    } else {
      JoinOntoPlain(d, n);
    }
    assert Join(d, n)[|Join(d, n)| - 1] == n[|n| - 1];
  }

  /** Joining a name onto a directory spelled with a trailing `/` appends the name. */
  lemma JoinOntoSlash(d: string, n: string)
    requires Absolute(d) && NoDoubleSlash(d) && d[|d| - 1] == '/' && ValidName(n)
    ensures Join(d, n) == d + n
    ensures Absolute(Join(d, n)) && NoDoubleSlash(Join(d, n))
  {
    CollapseJunction(d, n);
  }

  /** Joining a name onto a directory spelled without a trailing `/` inserts one. */
  lemma JoinOntoPlain(d: string, n: string)
    requires Absolute(d) && NoDoubleSlash(d) && d[|d| - 1] != '/' && ValidName(n)
    ensures Join(d, n) == d + "/" + n
    ensures Absolute(Join(d, n)) && NoDoubleSlash(Join(d, n))
  {
    SeparatedNoDoubleSlash(d, n);
    CollapseIdentity(d + "/" + n);
  }

  /** One separator between a directory not ending in `/` and a name creates no repeated `/`. */
  lemma SeparatedNoDoubleSlash(d: string, n: string)
    requires |d| > 0 && d[|d| - 1] != '/' && NoDoubleSlash(d) && '/' !in n
    ensures NoDoubleSlash(d + "/" + n)
  {
    var x := d + "/" + n;
    forall i | 0 < i < |x| ensures !(x[i - 1] == '/' && x[i] == '/') {
      if i < |d| {
        assert x[i - 1] == d[i - 1] && x[i] == d[i];
      } else if i > |d| {
        assert x[i] == n[i - |d| - 1];
      }
    }
  }

  /** Taking `dirname` of a directory-plus-name gives the directory back. */
  lemma DirnameOfChild(d: string, n: string)
    requires Absolute(d) && NoDoubleSlash(d) && ValidName(n)
    ensures Dirname(Join(d, n)) == DropTrailingSlash(d)
  {
    JoinChild(d, n);
    var c := DropTrailingSlash(d);
    var x := Join(d, n);
    assert TrimTrailingSlashes(x) == x;
    if c == "/" {
      assert x == "/" + n;
      assert LastSlash(x, 1).None? by {
        forall j | 1 <= j < |x| ensures x[j] != '/' {
          assert x[j] == n[j - 1];
        }
      }
    } else {
      LastSlashBeforeName(c, n, 1);
      assert x[..|c|] == c;
    }
  }

  /** `jumpPrev`'s split-pop-join of a directory-plus-name gives the directory back. */
  lemma ParentOfChild(d: string, n: string)
    requires Absolute(d) && NoDoubleSlash(d) && ValidName(n)
    ensures ParentBySplit(Join(d, n)) == DropTrailingSlash(d)
  {
    JoinChild(d, n);
    var c := DropTrailingSlash(d);
    var x := Join(d, n);
    if c == "/" {
      assert x == "" + "/" + n;
      LastSlashBeforeName("", n, 0);
      assert x[..0] == "";
    } else {
      LastSlashBeforeName(c, n, 0);
      assert x[..|c|] == c;
      assert NoDoubleSlash(c) by {
        forall i | 0 < i < |c| ensures !(c[i - 1] == '/' && c[i] == '/') {
          assert c[i - 1] == d[i - 1] && c[i] == d[i];
        }
      }
      var y := "/" + c;
      assert y[0] == '/' && y[1] == '/' && y[1..] == c;
      CollapseIdentity(c);
      assert Collapse(y) == c;
      assert c[|c| - 1] != '/' by {
        if d[|d| - 1] == '/' {
          assert c[|c| - 1] == d[|d| - 2];
        }
      }
    }
  }

  /** `basename` of a directory-plus-name gives the name back. */
  lemma BasenameOfChild(d: string, n: string)
    requires Absolute(d) && NoDoubleSlash(d) && ValidName(n)
    ensures Basename(Join(d, n)) == n
  {
    JoinChild(d, n);
    var c := DropTrailingSlash(d);
    var x := Join(d, n);
    assert StripSlashes(x) == x;
    var a := if c == "/" then "" else c;
    assert x == a + "/" + n;
    LastSlashBeforeName(a, n, 0);
    assert x[|a| + 1..] == n;
  }

  /** The last segment of an absolute path not ending in `/` is its `basename`, and is an entry name. */
  lemma BasenameIsLastSegment(p: string)
    requires Absolute(p) && p[|p| - 1] != '/'
    ensures LastSlash(p, 0).Some?
    ensures var k := LastSlash(p, 0).value;
      Basename(p) == p[k + 1..] && ValidName(p[k + 1..])
  {
    assert StripSlashes(p) == p;
    var k := LastSlash(p, 0).value;
    var n := p[k + 1..];
    assert ValidName(n) by {
      assert n[|n| - 1] == p[|p| - 1];
      forall i | 0 <= i < |n| ensures n[i] != '/' {
        assert n[i] == p[k + 1 + i];
      }
    }
  }

  /** What precedes the last segment of such a path, with no repeated `/`, is its `dirname`. */
  lemma DirnameIsPrefix(p: string)
    requires Absolute(p) && NoDoubleSlash(p) && p[|p| - 1] != '/'
    ensures LastSlash(p, 0).Some?
    ensures var k := LastSlash(p, 0).value;
      Dirname(p) == (if k == 0 then "/" else p[..k])
  {
    var k := LastSlash(p, 0).value;
    assert TrimTrailingSlashes(p) == p;
    if k == 0 {
      assert LastSlash(p, 1).None?;
    } else {
      assert k != 1;
      assert LastSlash(p, 1).value == k;
    }
  }

  /** Splitting a normalised absolute path at a separator and joining the two parts gives it back. */
  lemma JoinAtSlash(p: string, k: nat)
    requires Absolute(p) && NoDoubleSlash(p)
    requires k < |p| && p[k] == '/' && ValidName(p[k + 1..])
    ensures Join(if k == 0 then "/" else p[..k], p[k + 1..]) == p
  {
    var n := p[k + 1..];
    if k == 0 {
      JoinChild("/", n);
      assert p == "/" + n;
    } else {
      var d := p[..k];
      assert NoDoubleSlash(d) by {
        forall i | 0 < i < |d| ensures !(d[i - 1] == '/' && d[i] == '/') {
          assert d[i - 1] == p[i - 1] && d[i] == p[i];
        }
      }
      assert d[|d| - 1] != '/';
      JoinChild(d, n);
      assert p == d + "/" + n;
    }
  }

  /**
   * `dirname` and `basename` split an absolute, normalised path that does
   * not end in `/` into a directory and a name that `join` puts back together.
   */
  lemma DirnameBasenameJoin(p: string)
    requires Absolute(p) && NoDoubleSlash(p) && p[|p| - 1] != '/'
    ensures ValidName(Basename(p))
    ensures Join(Dirname(p), Basename(p)) == p
  {
    BasenameIsLastSegment(p);
    DirnameIsPrefix(p);
    JoinAtSlash(p, LastSlash(p, 0).value);
  }

  /** Joining onto a directory does not depend on whether it is spelled with a trailing `/`. */
  lemma JoinIgnoresTrailingSlash(d: string, n: string)
    requires Absolute(d) && NoDoubleSlash(d) && ValidName(n)
    ensures Join(DropTrailingSlash(d), n) == Join(d, n)
  {
    var c := DropTrailingSlash(d);
    assert NoDoubleSlash(c) by {
      forall i | 0 < i < |c| ensures !(c[i - 1] == '/' && c[i] == '/') {
        assert c[i - 1] == d[i - 1] && c[i] == d[i];
      }
    }
    JoinChild(d, n);
    JoinChild(c, n);
    assert DropTrailingSlash(c) == c by {
      if |c| > 1 && d[|d| - 1] == '/' {
        assert c[|c| - 1] == d[|d| - 2];
      }
    }
  }

  /** An absolute path has nothing to expand. */
  lemma AbsolutePathOfAbsolute(p: string, home: string)
    requires Absolute(p)
    ensures AbsolutePath(p, home) == p
  {
    assert !StartsWith(p, "~/") by {
      assert p[0] == '/';
    }
  }

  /** Expanding keeps a trailing `/`. */
  lemma AbsolutePathKeepsTrailingSlash(p: string, home: string)
    requires EndsWith(p, "/")
    ensures EndsWith(AbsolutePath(p, home), "/")
  {
    var r := AbsolutePath(p, home);
    assert r[|r| - 1] == p[|p| - 1];
    assert r[|r| - 1..] == [r[|r| - 1]];
  }

  /** `dirname` of an absolute path is absolute. */
  lemma DirnameAbsolute(p: string)
    requires Absolute(p)
    ensures Absolute(Dirname(p))
  {
  }

  /**
   * With a home directory that does not itself start with `~`, expanding is
   * idempotent: an expanded path never starts with `~/` again.
   */
  lemma AbsolutePathIdempotent(p: string, home: string)
    requires home == "" || home[0] != '~'
    ensures AbsolutePath(AbsolutePath(p, home), home) == AbsolutePath(p, home)
  {
    if StartsWith(p, "~/") {
      var r := home + "/" + p[2..];
      assert r[0] != '~';
    }
  }
}
