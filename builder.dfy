/** The setuptools `build_ext` command that builds the extension module by
    running `zig build`: it resolves the directory where the host expects the
    compiled module, turns each include directory into a flag, assembles the
    `zig build python` command line and spawns it once. */
module Builder {
  import opened PyPath

  /** A setuptools `Extension`: its dotted module name and its sources. */
  datatype Extension = Extension(name: string, sources: seq<string>)

  /** What the adapter asks of its environment. `fullPath` and `fileName`
      stand for `get_ext_fullpath` and `get_ext_filename` (two independent
      host queries), `cwd` for the process's working directory, and `run`
      for the exit status `zig` returns for a given command line. */
  datatype Host = Host(
    fullPath: string -> string,
    fileName: string -> string,
    cwd: string,
    run: seq<string> -> int)

  /** How one `build_extension` call ends: normally, with the
      `AssertionError` of the source-count check, or with the error that
      `spawn` raises when `zig` exits with a non-zero status. */
  datatype Outcome = Built | AssertionFailed | ToolFailed(status: int)

  /** What the `zig build` command line carries: the output directory, the
      file name to emit and the include directories. */
  datatype Request = Request(libDir: string, emitName: string, includeDirs: seq<string>)

  datatype Option<T> = None | Some(value: T)

  const FixedFlags: seq<string> := ["zig", "build", "python", "-Doptimize=ReleaseFast", "--prefix-lib-dir"]
  const EmitPrefix: string := "-Dpysdfgen-emit="
  const IncludePrefix: string := "-Dpython-include="

  /** The directory the compiled module must land in: the host's full output
      path without its last component, made absolute. */
  function ResolveOutputDir(fullPath: string, cwd: string): (dir: string)
    requires IsAbsolute(cwd)
    ensures IsAbsolute(dir)
    ensures IsAbsolute(ParentDir(fullPath)) ==> dir == ParentDir(fullPath)
    ensures !IsAbsolute(ParentDir(fullPath)) ==> |cwd| <= |dir| && dir[..|cwd|] == cwd
  {
    AbsPath(ParentDir(fullPath), cwd)
  }

  /** The list comprehension of include flags: one flag per include
      directory, in the same position. */
  function IncludeArgs(dirs: seq<string>): (flags: seq<string>)
    ensures |flags| == |dirs|
    ensures forall i :: 0 <= i < |dirs| ==> flags[i] == IncludePrefix + dirs[i]
  {
    if dirs == [] then [] else [IncludePrefix + dirs[0]] + IncludeArgs(dirs[1..])
  }

  /** The whole command line: the fixed flags, the output directory, the
      emit-name flag and then the include flags. */
  function Argv(req: Request): (argv: seq<string>)
    ensures |argv| == 7 + |req.includeDirs|
    ensures argv[..5] == ["zig", "build", "python", "-Doptimize=ReleaseFast", "--prefix-lib-dir"]
    ensures argv[5] == req.libDir
    ensures argv[6] == "-Dpysdfgen-emit=" + req.emitName
    ensures forall i :: 0 <= i < |req.includeDirs| ==> argv[7 + i] == "-Dpython-include=" + req.includeDirs[i]
  {
    var argv := FixedFlags + [req.libDir, EmitPrefix + req.emitName] + IncludeArgs(req.includeDirs);
    assert argv[..5] == FixedFlags;
    argv
  }

  /** The request built for an extension in a given host: the directory
      comes from `get_ext_fullpath`, the emit name from the separate
      `get_ext_filename` query, unmodified, and the include directories are
      passed on as configured. */
  function RequestFor(ext: Extension, host: Host, includeDirs: seq<string>): (req: Request)
    requires IsAbsolute(host.cwd)
    ensures IsAbsolute(req.libDir)
    ensures req.emitName == host.fileName(ext.name)
    ensures req.includeDirs == includeDirs
    ensures var p := host.fullPath(ext.name);
      ParentDir(p) != "" ==> req.libDir + "/" + LastComponent(p) == AbsPath(p, host.cwd)
    ensures ParentDir(host.fullPath(ext.name)) == "" ==> req.libDir == host.cwd
  {
    var p := host.fullPath(ext.name);
    assert ParentDir(p) != "" ==> ResolveOutputDir(p, host.cwd) + "/" + LastComponent(p) == AbsPath(p, host.cwd) by {
      if ParentDir(p) != "" { OutputLandsAtHostPath(p, host.cwd); }
    }
    Request(ResolveOutputDir(p, host.cwd), host.fileName(ext.name), includeDirs)
  }

  /** Reading the include directories back out of a run of include flags. */
  function ParseIncludes(flags: seq<string>): Option<seq<string>>
  {
    if flags == [] then Some([])
    else if !(IncludePrefix <= flags[0]) then None
    else match ParseIncludes(flags[1..])
      case None => None
      case Some(rest) => Some([flags[0][|IncludePrefix|..]] + rest)
  }

  /** The inverse of `Argv`: reads a request back out of an argument vector. */
  function ParseArgv(argv: seq<string>): Option<Request>
  {
    if |argv| < 7 || argv[..5] != FixedFlags || !(EmitPrefix <= argv[6]) then None
    else match ParseIncludes(argv[7..])
      case None => None
      case Some(dirs) => Some(Request(argv[5], argv[6][|EmitPrefix|..], dirs))
  }

  lemma StripPrefix(prefix: string, rest: string)
    ensures prefix <= prefix + rest && (prefix + rest)[|prefix|..] == rest
  {
  }

  /** Each include flag reads back as its own directory, none merged or lost. */
  lemma {:induction false} ParseIncludeArgs(dirs: seq<string>)
    ensures ParseIncludes(IncludeArgs(dirs)) == Some(dirs)
    decreases |dirs|
  {
    if dirs != [] {
      var flags := IncludeArgs(dirs);
      StripPrefix(IncludePrefix, dirs[0]);
      assert flags[1..] == IncludeArgs(dirs[1..]);
      ParseIncludeArgs(dirs[1..]);
      assert [dirs[0]] + dirs[1..] == dirs;
    }
  }

  /** Whatever the include flags parse to rebuilds exactly those flags. */
  lemma {:induction false} IncludeArgsParse(flags: seq<string>)
    requires ParseIncludes(flags).Some?
    ensures IncludeArgs(ParseIncludes(flags).value) == flags
    decreases |flags|
  {
    if flags != [] {
      IncludeArgsParse(flags[1..]);
      var d := flags[0][|IncludePrefix|..];
      assert IncludePrefix + d == flags[0];
      var dirs := ParseIncludes(flags).value;
      assert dirs[1..] == ParseIncludes(flags[1..]).value;
      assert [flags[0]] + flags[1..] == flags;
    }
  }

  /** The command line carries the request exactly: parsing it gives back
      the output directory, the emit name and every include directory. */
  lemma ParseArgvOfArgv(req: Request)
    ensures ParseArgv(Argv(req)) == Some(req)
  {
    var argv := Argv(req);
    StripPrefix(EmitPrefix, req.emitName);
    assert argv[7..] == IncludeArgs(req.includeDirs);
    ParseIncludeArgs(req.includeDirs);
  }

  /** Conversely, every command line that parses is the command line of what
      it parses to, so no other argument vector carries the same request. */
  lemma ArgvOfParseArgv(argv: seq<string>)
    requires ParseArgv(argv).Some?
    ensures Argv(ParseArgv(argv).value) == argv
  {
    var req := ParseArgv(argv).value;
    IncludeArgsParse(argv[7..]);
    assert EmitPrefix + req.emitName == argv[6];
    assert argv == argv[..5] + [argv[5], argv[6]] + argv[7..];
  }

  /** Duplicates are passed on: every directory gives as many include flags
      as it occurs in the list. */
  lemma {:induction false} IncludeArgsKeepsDuplicates(dirs: seq<string>, d: string)
    ensures multiset(IncludeArgs(dirs))[IncludePrefix + d] == multiset(dirs)[d]
    decreases |dirs|
  {
    if dirs != [] {
      IncludeArgsKeepsDuplicates(dirs[1..], d);
      assert dirs == [dirs[0]] + dirs[1..];
      if IncludePrefix + dirs[0] == IncludePrefix + d {
        StripPrefix(IncludePrefix, dirs[0]);
        StripPrefix(IncludePrefix, d);
      }
    }
  }

  /** Where `zig` is told to put the module is where the host looks for it:
      the output directory joined with the host's last path component is the
      absolute form of the host's full path, provided the parent directory
      is not empty. */
  lemma OutputLandsAtHostPath(fullPath: string, cwd: string)
    requires IsAbsolute(cwd)
    requires ParentDir(fullPath) != ""
    ensures '/' in fullPath
    ensures ResolveOutputDir(fullPath, cwd) + "/" + LastComponent(fullPath) == AbsPath(fullPath, cwd)
  {
    var d, name := ParentDir(fullPath), LastComponent(fullPath);
    assert fullPath == d + "/" + name;
    if IsAbsolute(d) {
      assert fullPath[0] == d[0];
    } else {
      assert fullPath[0] == d[0];
      if |cwd| > 0 && cwd[|cwd| - 1] == '/' {
        assert cwd + d + "/" + name == cwd + fullPath;
      } else {
        assert cwd + "/" + d + "/" + name == cwd + "/" + fullPath;
      }
    }
  }

  /** A host path with no separator, or one directly under the root such as
      "/file.so", has an empty parent, so its output directory is the
      working directory. */
  lemma TopLevelPathResolvesToCwd(fullPath: string, cwd: string)
    requires IsAbsolute(cwd)
    requires '/' !in fullPath || (IsAbsolute(fullPath) && '/' !in fullPath[1..])
    ensures ResolveOutputDir(fullPath, cwd) == cwd
  {
    if '/' in fullPath {
      var name := fullPath[1..];
      SplitNoSeparator(name);
      assert Split(fullPath) == [""] + Split(name);
    }
  }

  /** The `build_ext` command with the state the adapter touches: the
      include directories setuptools configured and the command lines
      `spawn` has been given so far. */
  class ZigBuilder {
    var includeDirs: seq<string>
    var spawned: seq<seq<string>>

    constructor (includeDirs: seq<string>)
      ensures this.includeDirs == includeDirs && spawned == []
    {
      this.includeDirs := includeDirs;
      spawned := [];
    }

    /** `self.spawn(cmd)`: runs the command once; a non-zero exit status is
        an error that reaches the caller. */
    method Spawn(cmd: seq<string>, host: Host) returns (status: int)
      modifies this`spawned
      ensures spawned == old(spawned) + [cmd]
      ensures status == host.run(cmd)
    {
      spawned := spawned + [cmd];
      status := host.run(cmd);
    }

    /** `build_extension(ext)`: with exactly one source, spawns the
        `zig build` command line for the extension once and reports its exit
        status; otherwise fails before spawning anything. */
    method BuildExtension(ext: Extension, host: Host) returns (outcome: Outcome)
      requires IsAbsolute(host.cwd)
      modifies this`spawned
      ensures |ext.sources| != 1 ==> outcome == AssertionFailed && spawned == old(spawned)
      ensures |ext.sources| == 1 ==>
        var argv := Argv(RequestFor(ext, host, includeDirs));
        && spawned == old(spawned) + [argv]
        && outcome == (if host.run(argv) == 0 then Built else ToolFailed(host.run(argv)))
    {
      if |ext.sources| != 1 {
        return AssertionFailed;
      }
      var modpath := Split(host.fullPath(ext.name));
      var dir := AbsPath(Join(modpath[..|modpath| - 1]), host.cwd);
      var includeArgs := IncludeArgs(includeDirs);
      var args := [
        "zig",
        "build",
        "python",
        "-Doptimize=ReleaseFast",
        "--prefix-lib-dir",
        dir,
        EmitPrefix + host.fileName(ext.name)
      ];
      args := args + includeArgs;
      assert dir == ResolveOutputDir(host.fullPath(ext.name), host.cwd);
      assert args == Argv(RequestFor(ext, host, includeDirs));
      var status := Spawn(args, host);
      outcome := if status == 0 then Built else ToolFailed(status);
    }
  }

  /** The build-directory scenario: a module such as
      "_sdf.cpython-311-x86_64-linux-gnu.so" under "/build/out" is placed in
      "/build/out", whatever the working directory. */
  lemma AbsoluteHostPathExample(name: string, cwd: string)
    requires IsAbsolute(cwd) && '/' !in name
    ensures ResolveOutputDir("/build/out/" + name, cwd) == "/build/out"
  {
    var parts := ["", "build", "out", name];
    assert parts[3..] == [name] && parts[2..] == ["out", name] && parts[1..] == ["build", "out", name];
    assert Join(parts[2..]) == "out" + "/" + name;
    assert Join(parts[1..]) == "build" + "/" + ("out" + "/" + name);
    assert "" + "/" + ("build" + "/" + ("out" + "/" + name)) == "/build/out/" + name;
    assert Join(parts) == "/build/out/" + name;
    SplitJoin(parts);
    var dirParts := parts[..3];
    assert dirParts[1..] == ["build", "out"] && dirParts[2..] == ["out"];
    assert "" + "/" + ("build" + "/" + "out") == "/build/out";
    assert Join(dirParts[2..]) == "out";
    assert Join(dirParts[1..]) == "build" + "/" + "out";
    assert Join(dirParts) == "/build/out";
    assert ParentDir("/build/out/" + name) == "/build/out";
  }

  /** The relative-path scenario: "out/_sdf.so" with the working directory
      "/home/user/proj" is placed in "/home/user/proj/out". */
  lemma RelativeHostPathExample(name: string)
    requires '/' !in name
    ensures ResolveOutputDir("out/" + name, "/home/user/proj") == "/home/user/proj/out"
  {
    var parts := ["out", name];
    assert parts[1..] == [name];
    assert "out" + "/" + name == "out/" + name;
    SplitJoin(parts);
    assert parts[..1] == ["out"];
    assert "/home/user/proj" + "/" + "out" == "/home/user/proj/out";
  }
}
