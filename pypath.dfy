/** The pieces of Python's string and path library that the build adapter
    relies on: `str.split('/')`, `'/'.join(...)` and `os.path.abspath`.
    Paths are strings; the separator is always '/'. */
module PyPath {

  /** Python's `s.split('/')`: the pieces between separators, in order.
      There is always at least one piece (`"".split('/') == [""]`). */
  function Split(s: string): (parts: seq<string>)
    ensures |parts| >= 1
    ensures forall i :: 0 <= i < |parts| ==> '/' !in parts[i]
    decreases |s|
  {
    if s == [] then [""]
    else
      var rest := Split(s[1..]);
      if s[0] == '/' then [""] + rest
      else [[s[0]] + rest[0]] + rest[1..]
  }

  /** Python's `'/'.join(parts)`; the join of an empty list is "". The
      result starts with the first piece, and a separator follows it when
      there are more. */
  function Join(parts: seq<string>): (s: string)
    ensures |parts| >= 1 ==> parts[0] <= s
    ensures |parts| >= 2 ==> |parts[0]| < |s| && s[|parts[0]|] == '/'
  {
    if |parts| == 0 then ""
    else if |parts| == 1 then parts[0]
    else parts[0] + "/" + Join(parts[1..])
  }

  /** Joining the pieces of a split gives back the string. */
  lemma {:induction false} JoinSplit(s: string)
    ensures Join(Split(s)) == s
    decreases |s|
  {
    if s != [] {
      var rest := Split(s[1..]);
      JoinSplit(s[1..]);
      if s[0] == '/' {
        assert Split(s) == [""] + rest;
        assert Join(Split(s)) == "" + "/" + Join(rest);
        assert s == [s[0]] + s[1..];
      } else if |rest| == 1 {
        assert Split(s) == [[s[0]] + rest[0]];
        assert s == [s[0]] + s[1..];
      } else {
        var parts := [[s[0]] + rest[0]] + rest[1..];
        assert Split(s) == parts;
        assert parts[1..] == rest[1..];
        assert Join(rest) == rest[0] + "/" + Join(rest[1..]);
        assert s == [s[0]] + s[1..];
      }
    }
  }

  /** Splitting a join of separator-free pieces gives back the pieces, so
      Split and Join are inverse on their domains. */
  lemma {:induction false} SplitJoin(parts: seq<string>)
    requires |parts| >= 1
    requires forall i :: 0 <= i < |parts| ==> '/' !in parts[i]
    ensures Split(Join(parts)) == parts
    decreases |parts|, |parts[0]|
  {
    if |parts| == 1 {
      SplitNoSeparator(parts[0]);
    } else if parts[0] == "" {
      var tail := parts[1..];
      assert Join(parts) == "/" + Join(tail);
      SplitJoin(tail);
      assert ("/" + Join(tail))[1..] == Join(tail);
      assert parts == [""] + tail;
    } else {
      var head := parts[0];
      var shorter := [head[1..]] + parts[1..];
      assert '/' !in head[1..] by {
        forall k | 0 <= k < |head[1..]| ensures head[1..][k] != '/' {
          assert head[1..][k] == head[k + 1];
        }
      }
      assert forall i :: 0 <= i < |shorter| ==> '/' !in shorter[i] by {
        forall i | 0 <= i < |shorter| ensures '/' !in shorter[i] {
          if i > 0 { assert shorter[i] == parts[i]; }
        }
      }
      SplitJoin(shorter);
      var s := Join(parts);
      assert shorter[1..] == parts[1..];
      assert s == head + "/" + Join(parts[1..]);
      assert Join(shorter) == head[1..] + "/" + Join(parts[1..]);
      assert s[0] == head[0];
      assert s[1..] == Join(shorter);
      assert head[0] != '/';
      assert Split(s) == [[head[0]] + shorter[0]] + shorter[1..];
      assert [head[0]] + head[1..] == head;
    }
  }

  /** A string with no separator splits into itself alone. */
  lemma {:induction false} SplitNoSeparator(s: string)
    requires '/' !in s
    ensures Split(s) == [s]
    decreases |s|
  {
    if s != [] {
      assert '/' !in s[1..] by {
        forall k | 0 <= k < |s[1..]| ensures s[1..][k] != '/' {
          assert s[1..][k] == s[k + 1];
        }
      }
      SplitNoSeparator(s[1..]);
      assert [s[0]] + s[1..] == s;
    }
  }

  /** There is more than one piece exactly when the string holds a separator. */
  lemma {:induction false} SplitManyIffSeparator(s: string)
    ensures |Split(s)| >= 2 <==> '/' in s
    decreases |s|
  {
    if '/' !in s {
      SplitNoSeparator(s);
    } else if s[0] != '/' {
      assert '/' in s[1..] by {
        var k :| 0 <= k < |s| && s[k] == '/';
        assert s[1..][k - 1] == '/';
      }
      SplitManyIffSeparator(s[1..]);
    }
  }

  /** Splitting off the last piece of a list of two or more. */
  lemma {:induction false} JoinDropLast(parts: seq<string>)
    requires |parts| >= 2
    ensures Join(parts) == Join(parts[..|parts| - 1]) + "/" + parts[|parts| - 1]
    decreases |parts|
  {
    if |parts| > 2 {
      var tail := parts[1..];
      JoinDropLast(tail);
      assert tail[..|tail| - 1] == parts[..|parts| - 1][1..];
      assert parts[..|parts| - 1][0] == parts[0];
    } else {
      assert parts[..1] == [parts[0]];
    }
  }

  /** The last '/'-separated component of a path (the tail that the
      adapter drops). */
  function LastComponent(path: string): (name: string)
    ensures '/' !in name
  {
    var parts := Split(path);
    parts[|parts| - 1]
  }

  /** `'/'.join(path.split('/')[0:-1])`: the path with its last
      '/'-separated component, and the separator before it, removed. When
      the path holds a separator, the parent directory, a separator and the
      last component put the path back together; when it holds none, the
      parent directory is empty. */
  function ParentDir(path: string): (dir: string)
    ensures '/' in path ==> dir + "/" + LastComponent(path) == path
    ensures '/' !in path ==> dir == ""
  {
    var parts := Split(path);
    SplitManyIffSeparator(path);
    JoinSplit(path);
    var dir := Join(parts[..|parts| - 1]);
    assert |parts| >= 2 ==> Join(parts) == dir + "/" + parts[|parts| - 1] by {
      if |parts| >= 2 { JoinDropLast(parts); }
    }
    dir
  }

  /** The parent directory is what comes before the LAST separator: it is a
      prefix of the path and what follows it is one separator and then a
      separator-free name. */
  lemma ParentDirIsBeforeLastSeparator(path: string)
    requires '/' in path
    ensures var d := ParentDir(path);
      |d| < |path| && path[..|d|] == d && path[|d|] == '/' && '/' !in path[|d| + 1..]
  {
  }

  predicate IsAbsolute(p: string)
  {
    |p| > 0 && p[0] == '/'
  }

  /** `posixpath.join(a, b)` for a relative `b`: a separator is put between
      them unless `a` already ends with one. */
  function JoinPath(a: string, b: string): string
  {
    if |a| > 0 && a[|a| - 1] == '/' then a + b else a + "/" + b
  }

  /** `os.path.abspath(p)` with the working directory `cwd` as an input.
      An absolute path is kept, the empty path becomes the working directory,
      and any other relative path is joined onto the working directory.
      The removal of "." and ".." components and of doubled or trailing
      separators is not part of this model. */
  function AbsPath(p: string, cwd: string): (r: string)
    requires IsAbsolute(cwd)
    ensures IsAbsolute(r)
    ensures IsAbsolute(p) ==> r == p
    ensures p == "" ==> r == cwd
    ensures !IsAbsolute(p) ==> |cwd| <= |r| && r[..|cwd|] == cwd
    ensures p != "" ==> |p| <= |r| && r[|r| - |p|..] == p
  {
    if IsAbsolute(p) then p
    else if p == "" then cwd
    else JoinPath(cwd, p)
  }
}
