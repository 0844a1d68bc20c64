# ZigBuilder: the `build_ext` adapter that builds the Python extension with `zig build`

This project models `ZigBuilder.build_extension` (`python/builder.py`). That is
the setuptools `build_ext` command which builds the `sdfgen` extension module
with the Zig build system instead of a C compiler. Given an extension, it:

1. asserts that the extension has exactly one source;
2. takes the host's full output path for the module (`get_ext_fullpath`),
   splits it on `'/'`, drops the last component, joins the rest with `'/'`
   and makes the result absolute (`os.path.abspath`);
3. builds the command line `zig build python -Doptimize=ReleaseFast
   --prefix-lib-dir <dir> -Dpysdfgen-emit=<file name>`, followed by one
   `-Dpython-include=<dir>` flag per configured include directory;
4. spawns that command once.

Two modules:

- `PyPath` (`pypath.dfy`) models the Python library pieces step 2 uses:
  `str.split('/')` and `'/'.join` as recursive functions that are proved
  inverse to each other, the parent directory that the split-and-join yields,
  and an abstract `os.path.abspath` that takes the working directory as an
  input.
- `Builder` (`builder.dfy`) holds the include-flag comprehension, the argument
  vector and a parser that reads a request back out of an argument vector. The
  parser is the partner of the vector: the two are proved inverse. It also
  holds the class `ZigBuilder`. That class has the configured include
  directories and a log of every command line given to `spawn`, and its
  `BuildExtension` method is proved against the pure functions.

The host's queries are fields of a `Host` value. These are `get_ext_fullpath`,
`get_ext_filename`, the working directory and the exit status `zig` returns
for a command line. `get_ext_fullpath` and `get_ext_filename` are two
independent functions: nothing in the model assumes the emit name equals the
last component of the full path.

As written, a host path with no `'/'`, or one directly under the root such as
`/file.so`, has an empty parent. `os.path.abspath("")` is the working
directory, so zig is told to put the module in the working directory
(`Builder.TopLevelPathResolvesToCwd`). For any other path, the resolved
directory joined with the last component is the absolute form of the host's
path (`Builder.OutputLandsAtHostPath`).

## Model

| member | source | states |
|---|---|---|
| `PyPath.Split` | python/builder.py:11 | `path.split('/')` has at least one piece and no piece contains `'/'` |
| `PyPath.Join` | python/builder.py:12 | `'/'.join(parts)` starts with the first piece, and a `'/'` follows it when there are two or more pieces |
| `PyPath.JoinSplit` | python/builder.py:11-12 | `'/'.join(s.split('/')) == s` for every string |
| `PyPath.SplitJoin` | python/builder.py:11-12 | splitting the join of one or more `'/'`-free pieces gives back exactly those pieces |
| `PyPath.SplitNoSeparator` | python/builder.py:11 | a string without `'/'` splits into the one-element list of itself |
| `PyPath.SplitManyIffSeparator` | python/builder.py:11 | the split has two or more pieces if and only if the path contains `'/'` |
| `PyPath.JoinDropLast` | python/builder.py:12 | joining two or more pieces is the join of all but the last (`modpath[0:-1]`), then `'/'`, then the last |
| `PyPath.LastComponent` | python/builder.py:11 | the component that `[0:-1]` drops contains no `'/'` |
| `PyPath.ParentDir` | python/builder.py:11-12 | `'/'.join(modpath[0:-1])`: if the path contains `'/'`, parent + `"/"` + last component is the path; if not, the parent is `""` |
| `PyPath.ParentDirIsBeforeLastSeparator` | python/builder.py:11-12 | the parent is the prefix of the path before its last `'/'`, and no `'/'` follows that one |
| `PyPath.AbsPath` | python/builder.py:12 | `os.path.abspath` gives an absolute path; an absolute input is kept; `""` gives the working directory; a relative input starts with the working directory; a non-empty input is a suffix of the result |
| `Builder.ResolveOutputDir` | python/builder.py:11-12 | the resolved directory is always absolute; an absolute parent is kept; a relative or empty parent is rooted at the working directory |
| `Builder.OutputLandsAtHostPath` | python/builder.py:11-12 | for a non-empty parent, resolved directory + `"/"` + last component is the absolute form of the host's full path |
| `Builder.TopLevelPathResolvesToCwd` | python/builder.py:11-12 | a host path without `'/'`, or of the form `/file.so`, resolves to the working directory |
| `Builder.AbsoluteHostPathExample` | python/builder.py:11-12 | `/build/out/<name>` resolves to `/build/out` whatever the working directory |
| `Builder.RelativeHostPathExample` | python/builder.py:11-12 | `out/<name>` with working directory `/home/user/proj` resolves to `/home/user/proj/out` |
| `Builder.RequestFor` | python/builder.py:11-22 | what the command line is built from: an absolute directory that, for a non-empty parent, joined with the last component gives the absolute host path, and for an empty parent is the working directory; the emit name is the separate `get_ext_filename` result, unmodified (line 22); the include directories are the configured ones (line 14) |
| `Builder.IncludeArgs` | python/builder.py:14 | one flag per include directory; flag i is `-Dpython-include=` followed by directory i |
| `Builder.IncludeArgsKeepsDuplicates` | python/builder.py:14 | each directory yields as many include flags as it has occurrences, so none is removed or merged |
| `Builder.ParseIncludeArgs` | python/builder.py:14 | reading the include flags back gives exactly the include directories, in order |
| `Builder.IncludeArgsParse` | python/builder.py:14 | every run of include flags is the comprehension of the directories it reads back as |
| `Builder.Argv` | python/builder.py:14-24 | the vector has length 7 + N; entries 0-4 are `zig`, `build`, `python`, `-Doptimize=ReleaseFast`, `--prefix-lib-dir`; entry 5 is the directory; entry 6 is `-Dpysdfgen-emit=` + the host file name, unmodified; entry 7+i is `-Dpython-include=` + include directory i |
| `Builder.ParseArgvOfArgv` | python/builder.py:15-24 | parsing the vector gives back the directory, the emit name and every include directory |
| `Builder.ArgvOfParseArgv` | python/builder.py:15-24 | every vector that parses is the vector of what it parses to, so no other vector carries the same request |
| `Builder.ZigBuilder.Spawn` | python/builder.py:26 | `spawn` appends exactly the given command to the log and returns zig's exit status |
| `Builder.ZigBuilder.BuildExtension` | python/builder.py:8-26 | without exactly one source: `AssertionFailed` and nothing spawned. Otherwise: exactly one spawn of the assembled vector for the resolved directory, the host file name and the configured include directories. Exit status 0 gives `Built`; any other status gives `ToolFailed` with that status, which is not caught |

## Left out

- `PyPath.AbsPath`: does not model `os.path.abspath`'s normalisation. It does not remove `.` and `..` components, doubled separators or a trailing separator. So "an absolute path is kept" holds only for paths that are already normal.
- Only POSIX path semantics are modelled: `'/'` is the only separator, a leading `'/'` marks an absolute path, and `os.path.abspath` is `posixpath.abspath`. Windows paths (`ntpath`, `'\\'` separators, drive letters) are not covered.
- The naming rules of setuptools' `get_ext_fullpath` and `get_ext_filename`, and `os.getcwd`, are inputs (`Host.fullPath`, `Host.fileName`, `Host.cwd`). The working directory is required to be absolute, as `os.getcwd` always returns.
- The subprocess that `spawn` starts is not modelled: its exit status is the input `Host.run`. `spawn` raises an error on a non-zero status or a missing executable. The model represents both as `ToolFailed`. `dry_run` and logging inside `spawn` are left out.
- Python's `assert` is treated as always active. Under `python -O` the source-count check is skipped; the model does not cover that mode.
- `python/module.c`, `python/module.py`, `src/c/sdfgen.h`, `c/example.c`, `python/test.py` and `setup.py` are not part of this model. They are foreign-function wrappers, declarations, example drivers and packaging configuration, with no logic of the adapter's own.
