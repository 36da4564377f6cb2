/** The second pyproject toolchain (`all/`): the contexts of its blocks, which
    add a PyQt-builder block and a separate compile block to the first one,
    and the order in which the blocks are written.

    The build-system and metadata blocks read the same options the first
    toolchain's do and are the functions of `PyProjectToolchain`; Conan's
    `CppInfo.merge` is a parameter; `Path(...).as_posix()` is taken to leave
    the already POSIX paths of the model unchanged.
 */
module PyProjectToolchainAll {
  import opened Wrappers
  import opened Strings
  import opened Seqs
  import opened Versions
  import PyProjectToolchain

  // ---------------------------------------------------------------------------
  // [tool.sip.metadata]

  datatype SipMetadata = SipMetadata(metadata: PyProjectToolchain.Metadata, descriptionFile: string)

  /** `ToolSipMetadataBlock.context()`: the first toolchain's metadata, and a
      description file that is always `README.md`. The recipe version comes
      as `conan.tools.scm.Version` reads it; that class accepts any text, so
      only the Python version and the PyPI spelling can fail. */
  function MetadataContext(recipe: PyProjectToolchain.Recipe, version: Version, pyVersion: Option<string>,
                           cpython: Option<string>): (r: Result<SipMetadata>)
    ensures r.Err? <==> PyProjectToolchain.RequiredPythonVersion(pyVersion, cpython).Err? || PyProjectToolchain.PypiVersion(version).Err?
    ensures PyProjectToolchain.RequiredPythonVersion(pyVersion, cpython).Err? ==>
      r == Err(InvalidConfiguration(PyProjectToolchain.NoPythonVersion))
    ensures (PyProjectToolchain.RequiredPythonVersion(pyVersion, cpython).Ok? && PyProjectToolchain.PypiVersion(version).Err?) ==>
      r == Err(IndexError)
    ensures r.Ok? ==> r.value.descriptionFile == "README.md"
    ensures r.Ok? ==> r.value.metadata.version == PyProjectToolchain.PypiVersion(version).value
    ensures r.Ok? ==> r.value.metadata.pythonVersion == PyProjectToolchain.RequiredPythonVersion(pyVersion, cpython).value
    ensures r.Ok? ==> r.value.metadata.name == recipe.name && r.value.metadata.description == recipe.description &&
                      r.value.metadata.url == recipe.url && r.value.metadata.author == recipe.author &&
                      r.value.metadata.license == recipe.license
  {
    var python :- PyProjectToolchain.RequiredPythonVersion(pyVersion, cpython);
    var metadata :- PyProjectToolchain.MetadataOfVersion(recipe, version, python);
    Ok(SipMetadata(metadata, "README.md"))
  }

  // ---------------------------------------------------------------------------
  // The `cpython` dependency

  /** The `python` component of the `cpython` dependency's `cpp_info`. */
  datatype Component = Component(libDirs: seq<string>, libs: seq<string>, includeDirs: seq<string>)

  /** The `cpython` dependency: its version and, when it declares one, its
      `python` component (a missing one raises `KeyError`). */
  datatype CPythonDep = CPythonDep(version: Version, python: Option<Component>)

  // ---------------------------------------------------------------------------
  // [tool.sip.project] for PyQt-builder

  datatype PyQtBuilder = PyQtBuilder(linkFullDll: bool, pyLibDir: Option<string>, pyLib: Option<string>, pyShlib: Option<string>, qmlDebug: bool)

  /** The libraries of the `python` component as the `try` block reads them:
      `libdirs[0]` first and `libs[0]` second, so an `IndexError` on the
      second leaves the first assigned and the `py_lib` option in place. */
  function LibsOfComponent(pyLib: Option<string>, cpython: Option<CPythonDep>): (r: (Option<string>, Option<string>))
    ensures r.0.None? ==> r.1 == pyLib
    ensures r.0.Some? <==> cpython.Some? && cpython.value.python.Some? && |cpython.value.python.value.libDirs| > 0
  {
    if cpython.None? || cpython.value.python.None? then (None, pyLib)
    else
      var component := cpython.value.python.value;
      if |component.libDirs| == 0 then (None, pyLib)
      else if |component.libs| == 0 then (Some(component.libDirs[0]), pyLib)
      else (Some(component.libDirs[0]), Some(component.libs[0]))
  }

  /** `ToolSipProjectPyQtBuilder.context()`. The `py_lib_dir` option wins;
      without it the directory and library come from the `python` component
      of `cpython`, and a failed lookup only warns. */
  function PyQtBuilderContext(pyLib: Option<string>, pyLibDir: Option<string>, os: Option<string>, shared: Option<bool>,
                              buildType: Option<string>, cpython: Option<CPythonDep>): (r: PyQtBuilder)
    ensures r.linkFullDll <==> os == Some("Windows") && shared != Some(false)
    ensures r.qmlDebug <==> buildType == Some("Debug")
    ensures r.pyShlib == r.pyLib
    ensures pyLibDir.Some? ==> r.pyLibDir == pyLibDir && r.pyLib == pyLib
    ensures pyLibDir.None? ==> (r.pyLibDir.Some? <==> cpython.Some? && cpython.value.python.Some? && |cpython.value.python.value.libDirs| > 0)
    ensures r.pyLibDir.None? ==> r.pyLib == pyLib
  {
    var (dir, lib) := if pyLibDir.Some? then (pyLibDir, pyLib) else LibsOfComponent(pyLib, cpython);
    PyQtBuilder(
      os == Some("Windows") && shared.GetOr(true),
      dir, lib, lib,
      buildType.GetOr("Release") == "Debug")
  }

  /** Without the option, a complete `python` component supplies both the
      directory and the library. */
  lemma PyQtBuilderFromComponent(pyLib: Option<string>, os: Option<string>, shared: Option<bool>, buildType: Option<string>,
                                 version: Version, component: Component)
    requires |component.libDirs| > 0 && |component.libs| > 0
    ensures var r := PyQtBuilderContext(pyLib, None, os, shared, buildType, Some(CPythonDep(version, Some(component))));
      r.pyLibDir == Some(component.libDirs[0]) && r.pyLib == Some(component.libs[0]) && r.pyShlib == r.pyLib
  {
  }

  /** A component without libraries still sets the directory, and the library
      stays the `py_lib` option. */
  lemma PyQtBuilderPartialLookup(pyLib: Option<string>, os: Option<string>, shared: Option<bool>, buildType: Option<string>,
                                 version: Version, component: Component)
    requires |component.libDirs| > 0 && |component.libs| == 0
    ensures var r := PyQtBuilderContext(pyLib, None, os, shared, buildType, Some(CPythonDep(version, Some(component))));
      r.pyLibDir == Some(component.libDirs[0]) && r.pyLib == pyLib
  {
  }

  // ---------------------------------------------------------------------------
  // [tool.sip.project]

  datatype SipProject = SipProject(
    compile: bool, sipFilesDir: string, buildFolder: string, packageFolder: string,
    pyIncludeDir: Option<string>, pyMajorVersion: Option<string>, pyMinorVersion: Option<string>)

  /** The directory of `Python.h` below the include directory: none on
      Windows, `python<major>.<minor>` elsewhere. */
  function HeaderPath(os: string, v: Version): (r: string)
    ensures r == "" <==> os == "Windows"
    ensures os != "Windows" ==> StartsWith(r, "python") && Contains(r, ".")
  {
    if os == "Windows" then ""
    else
      var r := "python" + NatToString(v.major) + "." + NatToString(v.minor);
      assert r[..6] == "python";
      assert r[6 + |NatToString(v.major)|..6 + |NatToString(v.major)| + 1] == ".";
      ContainsAt(r, 6 + |NatToString(v.major)|, ".");
      r
  }

  /** `Path(base, sub).as_posix()` for relative parts: an empty `sub` adds nothing. */
  function JoinPath(base: string, sub: string): (r: string)
    ensures sub == "" ==> r == base
    ensures sub != "" ==> |r| == |base| + 1 + |sub| && r[..|base|] == base && r[|base|..] == "/" + sub
  {
    if sub == "" then base else base + "/" + sub
  }

  /** The `py-include-dir` line from the `python` component, or `None` when
      the lookup fails. */
  function ComponentInclude(os: string, v: Version, cpython: Option<CPythonDep>): (r: Option<string>)
    ensures r.Some? <==> cpython.Some? && cpython.value.python.Some? && |cpython.value.python.value.includeDirs| > 0
  {
    if cpython.Some? && cpython.value.python.Some? && |cpython.value.python.value.includeDirs| > 0 then
      Some(PyProjectToolchain.IncludeLine(JoinPath(cpython.value.python.value.includeDirs[0], HeaderPath(os, v))))
    else None
  }

  /** `ToolSipProjectBlock.context()`. The Python version is the `py_version`
      option (already parsed) or that of `cpython`; without one only a
      warning is issued and the `py_include` option is passed through as it
      is. The build directory is always `<build>/sip` and `compile` is
      always false. */
  function ProjectContext(name: string, folders: PyProjectToolchain.Folders, os: string, pyVersion: Option<Version>,
                          pyInclude: Option<string>, cpython: Option<CPythonDep>): (r: SipProject)
    ensures !r.compile
    ensures r.buildFolder == folders.build + "/sip"
    ensures r.sipFilesDir == folders.source + "/" + name
    ensures r.packageFolder == PyProjectToolchain.TargetDir(folders)
    ensures r.pyMajorVersion.Some? <==> pyVersion.Some? || cpython.Some?
    ensures r.pyMinorVersion.Some? <==> pyVersion.Some? || cpython.Some?
    ensures pyVersion.None? && cpython.None? ==> r.pyIncludeDir == pyInclude
    ensures (pyVersion.Some? || cpython.Some?) && pyInclude.Some? ==> r.pyIncludeDir == Some(PyProjectToolchain.IncludeLine(pyInclude.value))
    ensures pyInclude.None? ==> (r.pyIncludeDir.Some? <==> cpython.Some? && cpython.value.python.Some? && |cpython.value.python.value.includeDirs| > 0)
    ensures pyVersion.Some? ==>
      r.pyMajorVersion == Some(PyProjectToolchain.MajorLine(pyVersion.value)) && r.pyMinorVersion == Some(PyProjectToolchain.MinorLine(pyVersion.value))
    ensures pyVersion.None? && cpython.Some? ==>
      r.pyMajorVersion == Some(PyProjectToolchain.MajorLine(cpython.value.version)) &&
      r.pyMinorVersion == Some(PyProjectToolchain.MinorLine(cpython.value.version))
    ensures pyInclude.None? && cpython.Some? ==>
      r.pyIncludeDir == ComponentInclude(os, if pyVersion.Some? then pyVersion.value else cpython.value.version, cpython)
  {
    var python := if pyVersion.Some? then pyVersion else if cpython.Some? then Some(cpython.value.version) else None;
    var includeDir :=
      if python.None? then pyInclude
      else if pyInclude.Some? then Some(PyProjectToolchain.IncludeLine(pyInclude.value))
      else ComponentInclude(os, python.value, cpython);
    SipProject(
      false,
      folders.source + "/" + name,
      folders.build + "/sip",
      PyProjectToolchain.TargetDir(folders),
      includeDir,
      if python.Some? then Some(PyProjectToolchain.MajorLine(python.value)) else None,
      if python.Some? then Some(PyProjectToolchain.MinorLine(python.value)) else None)
  }

  /** The `py_version` option, not the version of `cpython`, names the header
      directory when both are known. */
  lemma IncludeDirFollowsOption(name: string, folders: PyProjectToolchain.Folders, os: string, v: Version, dep: CPythonDep, dir: string)
    requires os != "Windows" && dep.python.Some? && |dep.python.value.includeDirs| > 0 && dep.python.value.includeDirs[0] == dir
    ensures ProjectContext(name, folders, os, Some(v), None, Some(dep)).pyIncludeDir ==
      Some(PyProjectToolchain.IncludeLine(dir + "/python" + NatToString(v.major) + "." + NatToString(v.minor)))
  {
    assert dir + "/" + ("python" + NatToString(v.major) + "." + NatToString(v.minor))
        == dir + "/python" + NatToString(v.major) + "." + NatToString(v.minor);
  }

  /** On Windows the include directory of `cpython` is used as it is. */
  lemma WindowsIncludeDirIsComponentDir(name: string, folders: PyProjectToolchain.Folders, v: Version, dep: CPythonDep)
    requires dep.python.Some? && |dep.python.value.includeDirs| > 0
    ensures ProjectContext(name, folders, "Windows", Some(v), None, Some(dep)).pyIncludeDir ==
      Some(PyProjectToolchain.IncludeLine(dep.python.value.includeDirs[0]))
  {
  }

  // ---------------------------------------------------------------------------
  // The compile block

  datatype CompileArgs = CompileArgs(compileArgs: seq<string>, linkArgs: seq<string>)

  /** `ToolSipBindingBlockCompile.context()`: the toolchain's flags without
      the unset and empty ones. */
  function CompileContext(cxxflags: seq<Option<string>>, ldflags: seq<Option<string>>): (r: CompileArgs)
    ensures forall s :: s in r.compileArgs <==> s != "" && Some(s) in cxxflags
    ensures forall s :: s in r.linkArgs <==> s != "" && Some(s) in ldflags
    ensures |r.compileArgs| <= |cxxflags| && |r.linkArgs| <= |ldflags|
  {
    CompileArgs(PyProjectToolchain.FilterEmpty(cxxflags), PyProjectToolchain.FilterEmpty(ldflags))
  }

  /** Flags that are all set and non-empty are kept as they are, in order. */
  lemma {:induction false} FilterEmptyKeepsSetFlags(xs: seq<string>)
    requires forall i :: 0 <= i < |xs| ==> xs[i] != ""
    ensures PyProjectToolchain.FilterEmpty(PyProjectToolchain.Somes(xs)) == xs
  {
    if |xs| > 0 {
      assert PyProjectToolchain.Somes(xs)[1..] == PyProjectToolchain.Somes(xs[1..]);
      FilterEmptyKeepsSetFlags(xs[1..]);
    }
  }

  /** Unset and empty flags leave out only themselves: the kept flags are in
      the toolchain's order. */
  lemma CompileContextKeepsOrder(before: seq<string>, after: seq<string>, gap: Option<string>)
    requires forall i :: 0 <= i < |before| ==> before[i] != ""
    requires forall i :: 0 <= i < |after| ==> after[i] != ""
    requires gap.None? || gap == Some("")
    ensures CompileContext(PyProjectToolchain.Somes(before) + [gap] + PyProjectToolchain.Somes(after), []).compileArgs == before + after
  {
    var sb := PyProjectToolchain.Somes(before);
    var sa := PyProjectToolchain.Somes(after);
    calc {
      PyProjectToolchain.FilterEmpty(sb + [gap] + sa);
    == { PyProjectToolchain.FilterEmptyAppend(sb + [gap], sa); }
      PyProjectToolchain.FilterEmpty(sb + [gap]) + PyProjectToolchain.FilterEmpty(sa);
    == { PyProjectToolchain.FilterEmptyAppend(sb, [gap]); }
      PyProjectToolchain.FilterEmpty(sb) + PyProjectToolchain.FilterEmpty([gap]) + PyProjectToolchain.FilterEmpty(sa);
    == { FilterEmptyKeepsSetFlags(before); FilterEmptyKeepsSetFlags(after); GapIsDropped(gap); }
      before + [] + after;
    == { assert before + [] == before; }
      before + after;
    }
  }

  lemma GapIsDropped(gap: Option<string>)
    requires gap.None? || gap == Some("")
    ensures PyProjectToolchain.FilterEmpty([gap]) == []
  {
  }

  // ---------------------------------------------------------------------------
  // [tool.sip.bindings]

  /** The parts of a `cpp_info` the bindings block reads. */
  datatype CppInfo = CppInfo(libs: seq<string>, libDirs: seq<string>, includeDirs: seq<string>)

  /** The aggregated `cpp_info` of the host dependencies: starting from the
      recipe's empty one, each dependency is merged in the reverse of
      topological order. `merge` is Conan's `CppInfo.merge`. */
  function Aggregate(merge: (CppInfo, CppInfo) -> CppInfo, init: CppInfo, topological: seq<CppInfo>): (r: CppInfo)
    ensures topological == [] ==> r == init
  {
    FoldLeft(merge, init, Reverse(topological))
  }

  /** The dependency last in topological order is merged first. */
  lemma AggregateMergesLastFirst(merge: (CppInfo, CppInfo) -> CppInfo, init: CppInfo, earlier: seq<CppInfo>, last: CppInfo)
    ensures Aggregate(merge, init, earlier + [last]) == Aggregate(merge, merge(init, last), earlier)
  {
    var xs := earlier + [last];
    assert Reverse(xs) == [last] + Reverse(earlier) by {
      assert xs[|xs| - 1] == last;
      forall i | 0 <= i < |earlier|
        ensures Reverse(xs)[i + 1] == Reverse(earlier)[i]
      {
        assert xs[|xs| - 1 - (i + 1)] == earlier[|earlier| - 1 - i];
      }
    }
    assert ([last] + Reverse(earlier))[1..] == Reverse(earlier);
  }

  /** The dependency first in topological order is merged last. */
  lemma {:induction false} AggregateMergesFirstLast(merge: (CppInfo, CppInfo) -> CppInfo, init: CppInfo, first: CppInfo, later: seq<CppInfo>)
    ensures Aggregate(merge, init, [first] + later) == merge(Aggregate(merge, init, later), first)
    decreases |later|
  {
    if |later| == 0 {
      assert [first] + later == [] + [first];
      AggregateMergesLastFirst(merge, init, [], first);
    } else {
      var earlier := later[..|later| - 1];
      var last := later[|later| - 1];
      assert later == earlier + [last];
      assert [first] + later == ([first] + earlier) + [last];
      AggregateMergesLastFirst(merge, init, [first] + earlier, last);
      AggregateMergesLastFirst(merge, init, earlier, last);
      AggregateMergesFirstLast(merge, merge(init, last), first, earlier);
    }
  }

  datatype SipBindings = SipBindings(
    name: string, libs: seq<string>, libDirs: seq<string>, includeDirs: seq<string>, buildStatic: string, buildDebug: string)

  /** `ToolSipBindingsBlock.context()`: the aggregated libraries and
      directories, the recipe's own include directories after the
      dependencies'. */
  function BindingsContext(name: string, aggregated: CppInfo, sourceIncludeDirs: seq<string>,
                           settings: PyProjectToolchain.BuildSettings): (r: SipBindings)
    ensures r.libs == aggregated.libs && r.libDirs == aggregated.libDirs
    ensures |r.includeDirs| == |aggregated.includeDirs| + |sourceIncludeDirs|
    ensures r.includeDirs[..|aggregated.includeDirs|] == aggregated.includeDirs
    ensures r.includeDirs[|aggregated.includeDirs|..] == sourceIncludeDirs
    ensures r.buildStatic == "True" <==> settings.shared == Some("")
    ensures r.buildDebug == "True" <==> settings.buildType == Some("Debug")
  {
    SipBindings(name, aggregated.libs, aggregated.libDirs, aggregated.includeDirs + sourceIncludeDirs,
                PyProjectToolchain.BuildStatic(settings), PyProjectToolchain.BuildDebug(settings))
  }

  /** The bindings block as evidently intended: `build_static` follows the
      `shared` option, and nothing else differs from the block as written. */
  function BindingsContextIntended(name: string, aggregated: CppInfo, sourceIncludeDirs: seq<string>,
                                   settings: PyProjectToolchain.BuildSettings, sharedOption: Option<bool>): (r: SipBindings)
    ensures r.buildStatic == "True" <==> sharedOption == Some(false)
    ensures r.buildDebug == "True" <==> settings.buildType == Some("Debug")
    ensures r.(buildStatic := PyProjectToolchain.BuildStatic(settings)) == BindingsContext(name, aggregated, sourceIncludeDirs, settings)
  {
    SipBindings(name, aggregated.libs, aggregated.libDirs, aggregated.includeDirs + sourceIncludeDirs,
                PyProjectToolchain.BuildStaticIntended(sharedOption), PyProjectToolchain.BuildDebug(settings))
  }

  /** The same block here: with the option `shared=False` and no `shared`
      setting, `build-static` is rendered `False` where the option asks for
      `True`. */
  lemma StaticOptionIsIgnored(name: string, aggregated: CppInfo, sourceIncludeDirs: seq<string>, buildType: Option<string>)
    ensures BindingsContext(name, aggregated, sourceIncludeDirs, PyProjectToolchain.BuildSettings(buildType, None)).buildStatic == "False"
    ensures BindingsContextIntended(name, aggregated, sourceIncludeDirs, PyProjectToolchain.BuildSettings(buildType, None),
                                    Some(false)).buildStatic == "True"
  {
  }

  // ---------------------------------------------------------------------------
  // The toolchain

  /** The blocks every toolchain writes, in order, around the optional
      `pyqt_builder`. */
  const LeadingBlocks: seq<string> := ["build_system", "tool_sip_metadata", "tool_sip_project"]
  const TrailingBlocks: seq<string> := ["tool_sip_bindings", "extra_sources", "compiling"]

  /** The block list of `PyProjectToolchain.__init__`: the PyQt-builder block
      is added, after the project block, exactly when `PyQt-builder` occurs
      in the `py_build_requires` option. */
  function Blocks(pyBuildRequires: Option<string>): (r: seq<string>)
    ensures "pyqt_builder" in r <==> Contains(pyBuildRequires.GetOr(""), "PyQt-builder")
    ensures |r| == 6 || (|r| == 7 && r[3] == "pyqt_builder")
    ensures r[..3] == LeadingBlocks && r[|r| - 3..] == TrailingBlocks
  {
    var middle := if Contains(pyBuildRequires.GetOr(""), "PyQt-builder") then ["pyqt_builder"] else [];
    LeadingBlocks + middle + TrailingBlocks
  }

  predicate NotPyQtBuilder(b: string) {
    b != "pyqt_builder"
  }

  /** Leaving out the PyQt-builder block, the order is the same either way. */
  lemma BlocksOrder(pyBuildRequires: Option<string>)
    ensures Filter(Blocks(pyBuildRequires), NotPyQtBuilder) == LeadingBlocks + TrailingBlocks
  {
    var middle: seq<string> := if Contains(pyBuildRequires.GetOr(""), "PyQt-builder") then ["pyqt_builder"] else [];
    assert Blocks(pyBuildRequires) == LeadingBlocks + middle + TrailingBlocks;
    FixedBlocksAreNotPyQtBuilder();
    FilterAroundMiddle(LeadingBlocks, middle, TrailingBlocks, NotPyQtBuilder);
  }

  lemma FixedBlocksAreNotPyQtBuilder()
    ensures forall i :: 0 <= i < |LeadingBlocks| ==> NotPyQtBuilder(LeadingBlocks[i])
    ensures forall i :: 0 <= i < |TrailingBlocks| ==> NotPyQtBuilder(TrailingBlocks[i])
  {
    assert "pyqt_builder"[0] == 'p';
    assert LeadingBlocks[0][0] == 'b' && LeadingBlocks[1][0] == 't' && LeadingBlocks[2][0] == 't';
    assert TrailingBlocks[0][0] == 't' && TrailingBlocks[1][0] == 'e' && TrailingBlocks[2][0] == 'c';
  }

  /** Without the option there is no PyQt-builder block. */
  lemma NoBuildRequiresNoPyQtBuilder()
    ensures Blocks(None) == LeadingBlocks + TrailingBlocks
  {
    assert !Contains("", "PyQt-builder");
  }
}
