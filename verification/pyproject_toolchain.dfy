/** The first pyproject toolchain: the context each block of `pyproject.toml`
    is rendered from, and the compiler and linker flags of the bindings block.

    Conan's own flag helpers (`cppstd_flag`, `architecture_flag`,
    `msvc_runtime_flag`, `apple_min_version_flag`) and the configuration
    lookups are inputs; Jinja rendering is outside the model.
 */
module PyProjectToolchain {
  import opened Wrappers
  import opened Strings
  import opened Versions

  // ---------------------------------------------------------------------------
  // [build-system]

  /** The requirements written when the recipe sets none. */
  const DefaultBuildRequires: seq<string> := ["setuptools>=40.8.0", "wheel"]

  datatype BuildSystem = BuildSystem(buildRequires: seq<string>, backend: Option<string>)

  /** `BuildSystemBlock.context()`: the `py_build_requires` option or the
      defaults, and a `build-backend` line only when the option is set. */
  function BuildSystemContext(buildRequires: Option<string>, buildBackend: Option<string>): (r: BuildSystem)
    ensures buildRequires.None? ==> r.buildRequires == DefaultBuildRequires
    ensures buildRequires.Some? ==> r.buildRequires == [buildRequires.value]
    ensures r.backend.Some? <==> buildBackend.Some?
    ensures r.backend.Some? ==> StartsWith(r.backend.value, "build-backend = \"")
  {
    BuildSystem(
      if buildRequires.None? then DefaultBuildRequires else [buildRequires.value],
      if buildBackend.None? then None else Some(BackendLine(buildBackend.value)))
  }

  /** `build-backend = "<backend>"` */
  function BackendLine(backend: string): (r: string)
    ensures |r| == |backend| + 18
  {
    "build-backend = \"" + backend + "\""
  }

  /** The backend line gives back the backend it names. */
  lemma BackendLineNamesBackend(backend: string)
    ensures BackendLine(backend)[17..|BackendLine(backend)| - 1] == backend
  {
  }

  // ---------------------------------------------------------------------------
  // [tool.sip.metadata]

  /** The recipe attributes the blocks read; the version is the recipe's text. */
  datatype Recipe = Recipe(name: string, version: string, description: string, url: string, author: string, license: string)

  datatype Metadata = Metadata(
    name: string, version: string, description: string, url: string, author: string, license: string,
    pythonVersion: string)

  /** The message raised when no Python version is known. */
  const NoPythonVersion: string :=
    "No minimum required Python version specified, either add the options: 'py_version' of add cpython as a Conan dependency!"

  /** The minimum Python version: the `py_version` option, else the version of
      the `cpython` dependency; with neither the configuration is invalid. */
  function RequiredPythonVersion(pyVersion: Option<string>, cpython: Option<string>): (r: Result<string>)
    ensures r.Err? <==> pyVersion.None? && cpython.None?
    ensures r.Err? ==> r.error == InvalidConfiguration(NoPythonVersion)
    ensures pyVersion.Some? ==> r == Ok(pyVersion.value)
    ensures pyVersion.None? && cpython.Some? ==> r == Ok(cpython.value)
  {
    if pyVersion.Some? then Ok(pyVersion.value)
    else if cpython.Some? then Ok(cpython.value)
    else Err(InvalidConfiguration(NoPythonVersion))
  }

  /** The PyPI spelling of a version: major.minor.patch, then for a
      prerelease `p.q…` the first letter of `p` followed by `q`, or for a
      one-part prerelease its first letter alone. An empty first part of the
      prerelease has no first letter and raises `IndexError`. */
  function PypiVersion(v: Version): (r: Result<string>)
    ensures v.pre == "" ==> r == Ok(CoreString(v))
    ensures r.Ok? ==> StartsWith(r.value, CoreString(v))
    ensures r.Err? <==> v.pre != "" && Split(v.pre, ".")[0] == ""
    ensures r.Err? ==> r.error == IndexError
  {
    var base := CoreString(v);
    if v.pre == "" then Ok(base)
    else
      var parts := Split(v.pre, ".");
      if parts[0] == "" then Err(IndexError)
      else
        var suffix := if |parts| > 1 then [parts[0][0]] + parts[1] else [parts[0][0]];
        assert (base + suffix)[..|base|] == base;
        Ok(base + suffix)
  }

  /** `ToolSipMetadataBlock.context()`: the Python version is checked first,
      then the recipe version is parsed with `conans.tools.Version`, which
      raises for a text it cannot parse. */
  function MetadataContext(recipe: Recipe, pyVersion: Option<string>, cpython: Option<string>): (r: Result<Metadata>)
    ensures r.Err? <==> RequiredPythonVersion(pyVersion, cpython).Err? || Parse(recipe.version).None? ||
                        PypiVersion(Parse(recipe.version).value).Err?
    ensures RequiredPythonVersion(pyVersion, cpython).Err? ==> r == Err(InvalidConfiguration(NoPythonVersion))
    ensures RequiredPythonVersion(pyVersion, cpython).Ok? && Parse(recipe.version).None? ==>
      r == Err(ConanError("Invalid version '" + recipe.version + "'"))
    ensures (RequiredPythonVersion(pyVersion, cpython).Ok? && Parse(recipe.version).Some? &&
             PypiVersion(Parse(recipe.version).value).Err?) ==> r == Err(IndexError)
    ensures r.Ok? ==> r.value.version == PypiVersion(Parse(recipe.version).value).value
    ensures r.Ok? ==> r.value.name == recipe.name && r.value.pythonVersion == RequiredPythonVersion(pyVersion, cpython).value
    ensures r.Ok? ==> r.value.description == recipe.description && r.value.url == recipe.url &&
                      r.value.author == recipe.author && r.value.license == recipe.license
  {
    var python :- RequiredPythonVersion(pyVersion, cpython);
    var version :- ToolsVersion(recipe.version);
    MetadataOfVersion(recipe, version, python)
  }

  /** The metadata once the Python version is known and the recipe version
      is read: only the PyPI spelling can still fail. */
  function MetadataOfVersion(recipe: Recipe, version: Version, python: string): (r: Result<Metadata>)
    ensures r.Err? <==> PypiVersion(version).Err?
    ensures r.Err? ==> r.error == IndexError
    ensures r.Ok? ==> r.value.version == PypiVersion(version).value && r.value.pythonVersion == python
    ensures r.Ok? ==> r.value.name == recipe.name && r.value.description == recipe.description && r.value.url == recipe.url &&
                      r.value.author == recipe.author && r.value.license == recipe.license
  {
    var pypi :- PypiVersion(version);
    Ok(Metadata(recipe.name, pypi, recipe.description, recipe.url, recipe.author, recipe.license, python))
  }

  /** A prerelease `tag.n` becomes the tag's first letter followed by `n`. */
  lemma PypiVersionOfNumberedPrerelease(v: Version, tag: string, n: string)
    requires |tag| > 0 && '.' !in tag && '.' !in n
    requires v.pre == tag + "." + n
    ensures PypiVersion(v) == Ok(CoreString(v) + [tag[0]] + n)
  {
    SplitAtFirst(tag, '.', n);
    SplitWithout(n, '.');
    assert "." == ['.'];
    assert tag + "." + n == tag + ['.'] + n;
    var parts := Split(v.pre, ".");
    assert parts == [tag, n];
    assert parts[0] != "" && |parts| > 1;
    var suffix := [parts[0][0]] + parts[1];
    assert suffix == [tag[0]] + n;
    assert CoreString(v) + suffix == CoreString(v) + [tag[0]] + n;
  }

  /** A one-part prerelease becomes its first letter. */
  lemma PypiVersionOfPlainPrerelease(v: Version)
    requires v.pre != "" && '.' !in v.pre
    ensures PypiVersion(v) == Ok(CoreString(v) + [v.pre[0]])
  {
    SplitWithout(v.pre, '.');
  }

  /** `1.2.3-beta.4` is published as `1.2.3b4`. */
  lemma PypiVersionExample()
    ensures PypiVersion(Version(1, 2, 3, "beta.4")) == Ok("1.2.3b4")
  {
    var v := Version(1, 2, 3, "beta.4");
    assert '.' !in "beta" && '.' !in "4";
    assert v.pre == "beta" + "." + "4";
    PypiVersionOfNumberedPrerelease(v, "beta", "4");
    CoreStringOfExample(v);
    assert "1.2.3" + ["beta"[0]] + "4" == "1.2.3b4";
  }

  lemma CoreStringOfExample(v: Version)
    requires v.major == 1 && v.minor == 2 && v.patch == 3
    ensures CoreString(v) == "1.2.3"
  {
    assert NatToString(1) == "1" && NatToString(2) == "2" && NatToString(3) == "3";
  }

  // ---------------------------------------------------------------------------
  // [tool.sip.project]

  /** What the recipe knows about its `cpython` dependency; the version is
      the reference's text. */
  datatype CPython = CPython(version: string, rootPath: string, includeDirs: seq<string>)

  datatype Project = Project(
    builderFactory: string, sipFilesDir: string, buildFolder: string, packageFolder: string,
    pyIncludeDir: Option<string>, pyMajorVersion: Option<string>, pyMinorVersion: Option<string>)

  /** The folders of the recipe; an empty package folder is an unset one. */
  datatype Folders = Folders(source: string, build: string, package: string, generators: string)

  /** `py-major-version = <n>` and `py-minor-version = <n>` */
  function MajorLine(v: Version): string {
    "py-major-version = " + NatToString(v.major)
  }

  function MinorLine(v: Version): string {
    "py-minor-version = " + NatToString(v.minor)
  }

  function IncludeLine(dir: string): string {
    "py-include-dir = \"" + dir + "\""
  }

  /** `<package folder or, when unset, build folder>/site-packages` */
  function TargetDir(folders: Folders): (r: string)
    ensures folders.package != "" ==> StartsWith(r, folders.package)
    ensures folders.package == "" ==> StartsWith(r, folders.build)
  {
    var base := if folders.package != "" then folders.package else folders.build;
    assert (base + "/site-packages")[..|base|] == base;
    base + "/site-packages"
  }

  /** The Python version text the project block reads: the `py_version`
      option, else the version of the `cpython` dependency. */
  function PythonVersionText(pyVersion: Option<string>, cpython: Option<CPython>): (r: Option<string>)
    ensures r.None? <==> pyVersion.None? && cpython.None?
    ensures pyVersion.Some? ==> r == pyVersion
    ensures pyVersion.None? && cpython.Some? ==> r == Some(cpython.value.version)
  {
    if pyVersion.Some? then pyVersion else if cpython.Some? then Some(cpython.value.version) else None
  }

  /** `ToolSipProjectBlock.context()`. The Python version is the `py_version`
      option or that of the `cpython` dependency, parsed with
      `conans.tools.Version`, which raises for a text it cannot parse;
      without one only a warning is issued, and the `py_include` option is
      passed through as it is. */
  function ProjectContext(name: string, folders: Folders, pyVersion: Option<string>, pyInclude: Option<string>, cpython: Option<CPython>): (r: Result<Project>)
    ensures r.Err? <==> PythonVersionText(pyVersion, cpython).Some? && Parse(PythonVersionText(pyVersion, cpython).value).None?
    ensures r.Err? ==> r.error == ConanError("Invalid version '" + PythonVersionText(pyVersion, cpython).value + "'")
    ensures r.Ok? ==> r.value.packageFolder == TargetDir(folders)
    ensures r.Ok? ==> r.value.builderFactory == folders.generators + "/cpp_builder.py"
    ensures r.Ok? ==> r.value.sipFilesDir == folders.source + "/" + name && r.value.buildFolder == folders.build
    ensures pyVersion.None? && cpython.None? ==>
      r.Ok? && r.value.pyIncludeDir == pyInclude && r.value.pyMajorVersion.None? && r.value.pyMinorVersion.None?
    ensures r.Ok? && PythonVersionText(pyVersion, cpython).Some? ==>
      var v := Parse(PythonVersionText(pyVersion, cpython).value).value;
      r.value.pyMajorVersion == Some(MajorLine(v)) && r.value.pyMinorVersion == Some(MinorLine(v))
    ensures r.Ok? && PythonVersionText(pyVersion, cpython).Some? && pyInclude.Some? ==>
      r.value.pyIncludeDir == Some(IncludeLine(pyInclude.value))
    ensures r.Ok? && pyInclude.None? && cpython.Some? && |cpython.value.includeDirs| > 0 ==>
      var v := Parse(PythonVersionText(pyVersion, cpython).value).value;
      r.value.pyIncludeDir == Some(IncludeLine(HeaderDir(cpython.value, v)))
    ensures r.Ok? && pyInclude.None? && (cpython.None? || |cpython.value.includeDirs| == 0) ==> r.value.pyIncludeDir.None?
  {
    var text := PythonVersionText(pyVersion, cpython);
    if text.None? then
      Ok(Project(folders.generators + "/cpp_builder.py", folders.source + "/" + name, folders.build, TargetDir(folders),
                 pyInclude, None, None))
    else
      var python :- ToolsVersion(text.value);
      var includeDir :=
        if pyInclude.Some? then Some(IncludeLine(pyInclude.value))
        else if cpython.Some? && |cpython.value.includeDirs| > 0 then Some(IncludeLine(HeaderDir(cpython.value, python)))
        else None;
      Ok(Project(folders.generators + "/cpp_builder.py", folders.source + "/" + name, folders.build, TargetDir(folders),
                 includeDir, Some(MajorLine(python)), Some(MinorLine(python))))
  }

  /** `<root>/<first include dir>/python<major>.<minor>`: where `Python.h`
      of `cpython` is found. */
  function HeaderDir(cpython: CPython, v: Version): (r: string)
    requires |cpython.includeDirs| > 0
    ensures StartsWith(r, cpython.rootPath + "/" + cpython.includeDirs[0] + "/python")
  {
    var prefix := cpython.rootPath + "/" + cpython.includeDirs[0] + "/python";
    var r := prefix + NatToString(v.major) + "." + NatToString(v.minor);
    assert r[..|prefix|] == prefix;
    r
  }

  /** The version lines give back the major and minor numbers they name. */
  lemma VersionLinesNameVersion(v: Version)
    ensures MajorLine(v)[19..] == NatToString(v.major)
    ensures MinorLine(v)[19..] == NatToString(v.minor)
  {
  }

  /** With the `py_version` option set, the version of `cpython` changes
      neither the version lines, nor the header directory's version, nor
      whether the block raises: an unparseable `cpython` version is never read. */
  lemma OptionVersionWins(name: string, folders: Folders, v: string, pyInclude: Option<string>, c1: CPython, c2: CPython)
    requires c1.rootPath == c2.rootPath && c1.includeDirs == c2.includeDirs
    ensures ProjectContext(name, folders, Some(v), pyInclude, Some(c1)) == ProjectContext(name, folders, Some(v), pyInclude, Some(c2))
  {
  }

  // ---------------------------------------------------------------------------
  // [tool.sip.bindings]

  /** `list(filter(bool, v))` over a list of optional texts: the set, non-empty ones. */
  function FilterEmpty(xs: seq<Option<string>>): (r: seq<string>)
    ensures |r| <= |xs|
    ensures forall i :: 0 <= i < |r| ==> r[i] != ""
    ensures forall s :: s in r <==> s != "" && Some(s) in xs
  {
    if |xs| == 0 then []
    else
      var rest := FilterEmpty(xs[1..]);
      assert forall s :: Some(s) in xs <==> xs[0] == Some(s) || Some(s) in xs[1..];
      if xs[0].Some? && xs[0].value != "" then [xs[0].value] + rest else rest
  }

  /** Filtering keeps the order: filtering a concatenation filters each part. */
  lemma {:induction false} FilterEmptyAppend(xs: seq<Option<string>>, ys: seq<Option<string>>)
    ensures FilterEmpty(xs + ys) == FilterEmpty(xs) + FilterEmpty(ys)
  {
    if |xs| == 0 {
      assert xs + ys == ys;
    } else {
      assert (xs + ys)[0] == xs[0];
      assert (xs + ys)[1..] == xs[1..] + ys;
      FilterEmptyAppend(xs[1..], ys);
    }
  }

  /** `_get_sysroot_flag()`: `--sysroot <path>` with backslashes turned into
      slashes, when the `tools.build:sysroot` configuration is set. */
  function SysrootFlag(sysroot: Option<string>): (r: Option<string>)
    ensures r.Some? <==> sysroot.Some? && sysroot.value != ""
    ensures r.Some? ==> StartsWith(r.value, "--sysroot ") && !Contains(r.value, "\\")
    ensures r.Some? ==> |r.value| == 10 + |sysroot.value|
    ensures r.Some? ==>
      forall i :: 0 <= i < |sysroot.value| ==> r.value[10 + i] == (if sysroot.value[i] == '\\' then '/' else sysroot.value[i])
  {
    if sysroot.Some? && sysroot.value != "" then
      var path := Replace(sysroot.value, "\\", "/");
      ReplaceCharRemoves(sysroot.value, '\\', "/");
      ReplaceCharByChar(sysroot.value, '\\', '/');
      NoBackslashAfterPrefix(path);
      Some("--sysroot " + path)
    else None
  }

  lemma NoBackslashAfterPrefix(path: string)
    requires '\\' !in path
    ensures !Contains("--sysroot " + path, "\\")
  {
    var s := "--sysroot " + path;
    assert '\\' !in s;
    NotContainsChar(s, '\\');
  }

  /** A text without a character does not contain it as a one-character text. */
  lemma {:induction false} NotContainsChar(s: string, c: char)
    requires c !in s
    ensures !Contains(s, [c])
    decreases |s|
  {
    if |s| > 0 {
      assert s[0] != c;
      assert c !in s[1..] by {
        assert forall i :: 0 <= i < |s[1..]| ==> s[1..][i] == s[i + 1];
      }
      NotContainsChar(s[1..], c);
    }
  }

  /** `_get_msvc_runtime_flag()`: the runtime flag, prefixed with `-` when set. */
  function RuntimeFlag(flag: Option<string>): (r: Option<string>)
    ensures r.Some? && r.value != "" <==> flag.Some? && flag.value != ""
    ensures flag.Some? && flag.value != "" ==> r.value[1..] == flag.value && r.value[0] == '-'
  {
    if flag.Some? && flag.value != "" then Some("-" + flag.value) else flag
  }

  /** The compiler settings `_get_libcxx_flag()` reads. */
  datatype Compiler = Compiler(base: Option<string>, name: Option<string>, libcxx: Option<string>)

  /** `settings.get_safe("compiler.base") or settings.get_safe("compiler")` */
  function EffectiveCompiler(c: Compiler): Option<string> {
    if c.base.Some? && c.base.value != "" then c.base else c.name
  }

  /** The Sun compiler's library flags. */
  function SunLibrary(libcxx: string): Option<string> {
    if libcxx == "libCstd" then Some("-library=Cstd")
    else if libcxx == "libstdcxx" then Some("-library=stdcxx4")
    else if libcxx == "libstlport" then Some("-library=stlport4")
    else if libcxx == "libstdc++" then Some("-library=stdcpp")
    else None
  }

  /** `_get_libcxx_flag()` */
  function LibcxxFlag(c: Compiler): (r: Option<string>)
    ensures c.libcxx.None? || c.libcxx.value == "" ==> r.None?
    ensures r.Some? ==> c.libcxx.Some? && EffectiveCompiler(c).Some?
    ensures r.Some? && EffectiveCompiler(c).value in {"clang", "apple-clang"} ==>
      r.value in {"-stdlib=libstdc++", "-stdlib=libc++"}
  {
    if c.libcxx.None? || c.libcxx.value == "" then None
    else
      var libcxx := c.libcxx.value;
      var compiler := EffectiveCompiler(c);
      if compiler == Some("clang") || compiler == Some("apple-clang") then
        if libcxx == "libstdc++" || libcxx == "libstdc++11" then Some("-stdlib=libstdc++")
        else if libcxx == "libc++" then Some("-stdlib=libc++")
        else None
      else if compiler == Some("sun-cc") then SunLibrary(libcxx)
      else if compiler == Some("qcc") then Some("-Y _" + libcxx)
      else None
  }

  /** The flags of clang and apple-clang. */
  lemma LibcxxFlagOfClang(c: Compiler)
    requires EffectiveCompiler(c) in {Some("clang"), Some("apple-clang")}
    ensures c.libcxx in {Some("libstdc++"), Some("libstdc++11")} ==> LibcxxFlag(c) == Some("-stdlib=libstdc++")
    ensures c.libcxx == Some("libc++") ==> LibcxxFlag(c) == Some("-stdlib=libc++")
    ensures c.libcxx !in {Some("libstdc++"), Some("libstdc++11"), Some("libc++")} ==> LibcxxFlag(c).None?
  {
  }

  /** The Sun compiler reads its table, qcc passes the library through, and
      any other compiler gets no flag. */
  lemma LibcxxFlagOfOtherCompilers(c: Compiler)
    requires c.libcxx.Some? && c.libcxx.value != ""
    ensures EffectiveCompiler(c) == Some("sun-cc") ==> LibcxxFlag(c) == SunLibrary(c.libcxx.value)
    ensures EffectiveCompiler(c) == Some("sun-cc") && c.libcxx.value == "libstdc++" ==> LibcxxFlag(c) == Some("-library=stdcpp")
    ensures EffectiveCompiler(c) == Some("qcc") ==> LibcxxFlag(c) == Some("-Y _" + c.libcxx.value)
    ensures EffectiveCompiler(c) !in {Some("clang"), Some("apple-clang"), Some("sun-cc"), Some("qcc")} ==> LibcxxFlag(c).None?
  {
  }

  /** `compiler.base`, when set, decides alone which compiler's flags apply. */
  lemma CompilerBaseTakesPrecedence(c: Compiler, other: Option<string>)
    requires c.base.Some? && c.base.value != ""
    ensures LibcxxFlag(c) == LibcxxFlag(c.(name := other))
  {
  }

  /** The flags from Conan's own helpers, as computed for the recipe. */
  datatype ToolFlags = ToolFlags(cppstd: Option<string>, arch: Option<string>, runtime: Option<string>, appleMin: Option<string>)

  /** `_get_extra_compiler_args()` */
  function ExtraCompilerArgs(tools: ToolFlags, compiler: Compiler, sysroot: Option<string>, cxxflags: seq<string>, fpic: bool): (r: seq<string>)
    ensures forall i :: 0 <= i < |r| ==> r[i] != ""
    ensures fpic ==> "-fPIC" in r
    ensures forall s :: s in cxxflags && s != "" ==> s in r
  {
    var flags := [tools.cppstd, tools.arch, LibcxxFlag(compiler), RuntimeFlag(tools.runtime), tools.appleMin, SysrootFlag(sysroot)]
      + Somes(cxxflags) + (if fpic then [Some("-fPIC")] else []);
    assert fpic ==> flags[|flags| - 1] == Some("-fPIC");
    FilterEmpty(flags)
  }

  /** The fixed flags, the configured ones, then `-fPIC`, each left out when empty. */
  lemma ExtraCompilerArgsOrder(tools: ToolFlags, compiler: Compiler, sysroot: Option<string>, cxxflags: seq<string>, fpic: bool)
    ensures ExtraCompilerArgs(tools, compiler, sysroot, cxxflags, fpic) ==
      FilterEmpty([tools.cppstd, tools.arch, LibcxxFlag(compiler), RuntimeFlag(tools.runtime), tools.appleMin, SysrootFlag(sysroot)])
      + FilterEmpty(Somes(cxxflags)) + (if fpic then ["-fPIC"] else [])
  {
    var fixed := [tools.cppstd, tools.arch, LibcxxFlag(compiler), RuntimeFlag(tools.runtime), tools.appleMin, SysrootFlag(sysroot)];
    var tail: seq<Option<string>> := if fpic then [Some("-fPIC")] else [];
    FilterEmptyAppend(fixed + Somes(cxxflags), tail);
    FilterEmptyAppend(fixed, Somes(cxxflags));
    assert FilterEmpty(tail) == (if fpic then ["-fPIC"] else []) by {
      if fpic {
        assert tail[1..] == [];
      }
    }
  }

  /** Without the option and without a configured `-fPIC`, there is none. */
  lemma NoFpicUnlessAsked(tools: ToolFlags, compiler: Compiler, sysroot: Option<string>, cxxflags: seq<string>)
    requires "-fPIC" !in cxxflags
    requires Some("-fPIC") !in [tools.cppstd, tools.arch, RuntimeFlag(tools.runtime), tools.appleMin]
    ensures "-fPIC" !in ExtraCompilerArgs(tools, compiler, sysroot, cxxflags, false)
  {
    var flags := [tools.cppstd, tools.arch, LibcxxFlag(compiler), RuntimeFlag(tools.runtime), tools.appleMin, SysrootFlag(sysroot)]
      + Somes(cxxflags);
    assert flags + [] == flags;
    if Some("-fPIC") in flags {
      var i :| 0 <= i < |flags| && flags[i] == Some("-fPIC");
      if i == 2 {
        LibcxxFlagIsNotFpic(compiler);
      }
    }
  }

  lemma LibcxxFlagIsNotFpic(c: Compiler)
    ensures LibcxxFlag(c) != Some("-fPIC")
  {
    if c.libcxx.Some? && c.libcxx.value != "" && EffectiveCompiler(c) == Some("qcc") {
      assert ("-Y _" + c.libcxx.value)[1] == 'Y';
    }
  }

  /** A list of texts as set optional texts. */
  function Somes(xs: seq<string>): (r: seq<Option<string>>)
    ensures |r| == |xs|
    ensures forall i :: 0 <= i < |xs| ==> r[i] == Some(xs[i])
  {
    seq(|xs|, i requires 0 <= i < |xs| => Some(xs[i]))
  }

  /** `_get_linker_args()` */
  function LinkerArgs(tools: ToolFlags, sysroot: Option<string>, sharedLinkFlags: seq<string>, exeLinkFlags: seq<string>): (r: seq<string>)
    ensures forall i :: 0 <= i < |r| ==> r[i] != ""
    ensures forall s :: s in sharedLinkFlags + exeLinkFlags && s != "" ==> s in r
    ensures forall s :: s in r ==> s in sharedLinkFlags + exeLinkFlags || Some(s) in [tools.arch, SysrootFlag(sysroot), tools.appleMin]
  {
    var fixed := [tools.arch, SysrootFlag(sysroot), tools.appleMin];
    var r := FilterEmpty(fixed + Somes(sharedLinkFlags) + Somes(exeLinkFlags));
    forall s | s in r ensures s in sharedLinkFlags + exeLinkFlags || Some(s) in fixed {
      SomesMembers(sharedLinkFlags);
      SomesMembers(exeLinkFlags);
    }
    r
  }

  /** The fixed flags, the shared-library flags, then the executable flags,
      each left out when unset or empty. */
  lemma LinkerArgsOrder(tools: ToolFlags, sysroot: Option<string>, sharedLinkFlags: seq<string>, exeLinkFlags: seq<string>)
    ensures LinkerArgs(tools, sysroot, sharedLinkFlags, exeLinkFlags) ==
      FilterEmpty([tools.arch, SysrootFlag(sysroot), tools.appleMin]) + FilterEmpty(Somes(sharedLinkFlags)) + FilterEmpty(Somes(exeLinkFlags))
  {
    var fixed := [tools.arch, SysrootFlag(sysroot), tools.appleMin];
    FilterEmptyAppend(fixed + Somes(sharedLinkFlags), Somes(exeLinkFlags));
    FilterEmptyAppend(fixed, Somes(sharedLinkFlags));
  }

  /** A text is set in `Somes(xs)` exactly when it is in `xs`. */
  lemma SomesMembers(xs: seq<string>)
    ensures forall s :: Some(s) in Somes(xs) <==> s in xs
  {
    forall s | Some(s) in Somes(xs) ensures s in xs {
      var i :| 0 <= i < |xs| && Somes(xs)[i] == Some(s);
    }
    forall s | s in xs ensures Some(s) in Somes(xs) {
      var i :| 0 <= i < |xs| && xs[i] == s;
      assert Somes(xs)[i] == Some(s);
    }
  }

  /** Python's `str` of a boolean. */
  function PyBool(b: bool): string {
    if b then "True" else "False"
  }

  /** The build settings the bindings block reads, as the texts
      `settings.get_safe` returns; unset ones are `None`, and get the
      defaults `"Release"` and `True`. */
  datatype BuildSettings = BuildSettings(buildType: Option<string>, shared: Option<string>)

  /** `build_static`: `str(not shared)` with `shared = settings.get_safe("shared", True)`.
      A set value is a text, true unless empty, and the default is `True`, so
      the result is `"True"` only for an empty setting. The recipe's `shared`
      option is not read. */
  function BuildStatic(s: BuildSettings): (r: string)
    ensures r == "True" <==> s.shared == Some("")
    ensures r == "True" || r == "False"
  {
    PyBool(!(s.shared.None? || s.shared.value != ""))
  }

  /** `build_static` as evidently intended: the negation of the recipe's
      `shared` option, shared by default. */
  function BuildStaticIntended(sharedOption: Option<bool>): (r: string)
    ensures r == "True" <==> sharedOption == Some(false)
    ensures r == "True" || r == "False"
  {
    PyBool(!sharedOption.GetOr(true))
  }

  /** `build_debug`: `str(build_type == "Debug")`, Release by default. */
  function BuildDebug(s: BuildSettings): (r: string)
    ensures r == "True" <==> s.buildType == Some("Debug")
    ensures r == "True" || r == "False"
  {
    PyBool(s.buildType.GetOr("Release") == "Debug")
  }

  datatype Bindings = Bindings(
    name: string, libs: seq<string>, libDirs: seq<string>, includeDirs: seq<string>,
    compileArgs: seq<string>, linkArgs: seq<string>, buildStatic: string, buildDebug: string)

  /** `ToolSipBindingsBlock.context()`: the dependencies' libraries and
      directories, the recipe's own include directories after theirs. */
  function BindingsContext(name: string, libs: seq<string>, libDirs: seq<string>, depIncludeDirs: seq<string>,
                           sourceIncludeDirs: seq<string>, compileArgs: seq<string>, linkArgs: seq<string>,
                           settings: BuildSettings): (r: Bindings)
    ensures |r.includeDirs| == |depIncludeDirs| + |sourceIncludeDirs|
    ensures r.includeDirs[..|depIncludeDirs|] == depIncludeDirs && r.includeDirs[|depIncludeDirs|..] == sourceIncludeDirs
    ensures r.name == name && r.libs == libs && r.libDirs == libDirs
    ensures r.compileArgs == compileArgs && r.linkArgs == linkArgs
    ensures r.buildStatic == "True" <==> settings.shared == Some("")
    ensures r.buildDebug == "True" <==> settings.buildType == Some("Debug")
  {
    Bindings(name, libs, libDirs, depIncludeDirs + sourceIncludeDirs, compileArgs, linkArgs,
             BuildStatic(settings), BuildDebug(settings))
  }

  /** The bindings block as evidently intended: `build_static` follows the
      `shared` option, and nothing else differs from the block as written. */
  function BindingsContextIntended(name: string, libs: seq<string>, libDirs: seq<string>, depIncludeDirs: seq<string>,
                                   sourceIncludeDirs: seq<string>, compileArgs: seq<string>, linkArgs: seq<string>,
                                   settings: BuildSettings, sharedOption: Option<bool>): (r: Bindings)
    ensures r.buildStatic == "True" <==> sharedOption == Some(false)
    ensures r.buildDebug == "True" <==> settings.buildType == Some("Debug")
    ensures r.(buildStatic := BuildStatic(settings)) ==
      BindingsContext(name, libs, libDirs, depIncludeDirs, sourceIncludeDirs, compileArgs, linkArgs, settings)
  {
    Bindings(name, libs, libDirs, depIncludeDirs + sourceIncludeDirs, compileArgs, linkArgs,
             BuildStaticIntended(sharedOption), BuildDebug(settings))
  }

  /** A recipe built with the option `shared=False` is told it builds a
      shared library: the settings have no `shared`, so the block renders
      `build-static` as `False` where the option asks for `True`. */
  lemma StaticOptionIsIgnored(name: string, libs: seq<string>, libDirs: seq<string>, depIncludeDirs: seq<string>,
                              sourceIncludeDirs: seq<string>, compileArgs: seq<string>, linkArgs: seq<string>,
                              buildType: Option<string>)
    ensures BindingsContext(name, libs, libDirs, depIncludeDirs, sourceIncludeDirs, compileArgs, linkArgs,
                            BuildSettings(buildType, None)).buildStatic == "False"
    ensures BindingsContextIntended(name, libs, libDirs, depIncludeDirs, sourceIncludeDirs, compileArgs, linkArgs,
                                    BuildSettings(buildType, None), Some(false)).buildStatic == "True"
  {
  }

  // ---------------------------------------------------------------------------
  // The toolchain

  /** The blocks of `pyproject.toml`, in the order they are written. */
  const Blocks: seq<string> := ["build_system", "tool_sip_metadata", "tool_sip_project", "tool_sip_bindings", "extra_sources"]
}
