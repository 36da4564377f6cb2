/** Choosing the wheel to download in the `twisted` and `pyparsing` recipes:
    the sources of the recipe version map an operating system (or `Any`) to
    wheels keyed by the Python version they are built for, and `source()`
    takes the wheel of the greatest Python version above 1.0 and at most the
    actual one.

    The two recipes differ only in where the actual Python version comes
    from: the `cpython` dependency for `twisted`, the `python_version` option
    for `pyparsing`. A wheel is any value `W`.
 */
module PypiWheel {
  import opened Wrappers
  import opened Strings
  import opened Versions
  import opened Json

  /** `Version("1.0")`, the starting point of the search. */
  const Floor: Version := Version(1, 0, 0, "")

  /** The key the search starts from and keeps when nothing qualifies. */
  const FloorKey: string := "1.0"

  // ---------------------------------------------------------------------------
  // The operating system

  /** The sources key: the setting `os` when the sources list it, else `Any`;
      with neither, the configuration is invalid. */
  function OsKey<W>(sources: Dict<W>, os: Option<string>): (r: Result<string>)
    ensures r.Ok? ==> HasKey(sources, r.value)
    ensures os.Some? && HasKey(sources, os.value) ==> r == Ok(os.value)
    ensures !(os.Some? && HasKey(sources, os.value)) && HasKey(sources, "Any") ==> r == Ok("Any")
    ensures r.Err? <==> !(os.Some? && HasKey(sources, os.value)) && !HasKey(sources, "Any")
    ensures r.Err? ==> r.error == InvalidConfiguration("Invalid version for Operating System")
  {
    if os.Some? && HasKey(sources, os.value) then Ok(os.value)
    else if HasKey(sources, "Any") then Ok("Any")
    else Err(InvalidConfiguration("Invalid version for Operating System"))
  }

  // ---------------------------------------------------------------------------
  // The Python version

  /** A wheel version the search may take: above 1.0 and at most the actual one. */
  predicate Qualifies(v: Version, actual: Version) {
    Lt(Floor, v) && Le(v, actual)
  }

  /** The outcome of the search: still the starting point, or the key at a
      position with its version. */
  datatype Choice = Initial | Chosen(index: nat, version: Version)

  /** Every key parses. */
  predicate AllParse(keys: seq<string>) {
    forall j :: 0 <= j < |keys| ==> Parse(keys[j]).Some?
  }

  /** What the loop knows after the first `m` keys with the choice `c`: they
      all parse; with no choice, none of them qualifies; otherwise the choice
      is one of them, it qualifies, no qualifying one is above it, and every
      qualifying one before it is strictly below it. */
  predicate Facts(keys: seq<string>, actual: Version, m: nat, c: Choice)
    requires m <= |keys|
  {
    (forall j :: 0 <= j < m ==> Parse(keys[j]).Some?)
    && (c.Initial? ==> forall j :: 0 <= j < m ==> !Qualifies(Parse(keys[j]).value, actual))
    && (c.Chosen? ==>
      c.index < m && Parse(keys[c.index]) == Some(c.version) && Qualifies(c.version, actual)
      && (forall j :: 0 <= j < m && Qualifies(Parse(keys[j]).value, actual) ==> Le(Parse(keys[j]).value, c.version))
      && (forall j :: 0 <= j < c.index && Qualifies(Parse(keys[j]).value, actual) ==> Lt(Parse(keys[j]).value, c.version)))
  }

  /** The version the loop currently holds. */
  function Current(c: Choice): Version {
    if c.Initial? then Floor else c.version
  }

  /** One turn of the loop: a key replaces the current one when its version is
      strictly above the current version and at most the actual one. */
  function Step(i: nat, v: Version, actual: Version, c: Choice): Choice {
    if Lt(Current(c), v) && Le(v, actual) then Chosen(i, v) else c
  }

  /** The loop over the wheel keys from position `i` on. A key that does not
      parse raises. */
  function ScanFrom(keys: seq<string>, actual: Version, i: nat, c: Choice): (r: Result<Choice>)
    requires i <= |keys| && Facts(keys, actual, i, c)
    ensures r.Ok? ==> AllParse(keys) && Facts(keys, actual, |keys|, r.value)
    ensures r.Err? ==> r.error.ConanError? && exists j :: i <= j < |keys| && Parse(keys[j]).None?
    decreases |keys| - i
  {
    if i == |keys| then Ok(c)
    else
      match Parse(keys[i])
      case None => Err(ConanError("Invalid version '" + keys[i] + "'"))
      case Some(v) =>
        StepKeepsFacts(keys, actual, i, c, v);
        ScanFrom(keys, actual, i + 1, Step(i, v, actual, c))
  }

  /** The loop of `source()`: the choice after every key, or the error of the
      first key that does not parse. */
  function Scan(keys: seq<string>, actual: Version): (r: Result<Choice>)
    ensures r.Err? <==> !AllParse(keys)
    ensures r.Err? ==> r.error.ConanError?
    ensures r.Ok? ==> Facts(keys, actual, |keys|, r.value)
  {
    ScanFrom(keys, actual, 0, Initial)
  }

  /** One turn keeps the facts, one key further. */
  lemma StepKeepsFacts(keys: seq<string>, actual: Version, i: nat, c: Choice, v: Version)
    requires i < |keys| && Facts(keys, actual, i, c) && Parse(keys[i]) == Some(v)
    ensures Facts(keys, actual, i + 1, Step(i, v, actual, c))
  {
    if Lt(Current(c), v) && Le(v, actual) {
      StepTakes(keys, actual, i, c, v);
    } else {
      StepKeeps(keys, actual, i, c, v);
    }
  }

  lemma StepTakes(keys: seq<string>, actual: Version, i: nat, c: Choice, v: Version)
    requires i < |keys| && Facts(keys, actual, i, c) && Parse(keys[i]) == Some(v)
    requires Lt(Current(c), v) && Le(v, actual)
    ensures Facts(keys, actual, i + 1, Chosen(i, v))
  {
    assert Lt(Floor, v) by {
      if c.Chosen? {
        LeLtTransitive(Floor, c.version, v);
      }
    }
    LeReflexive(v);
    forall j | 0 <= j < i && Qualifies(Parse(keys[j]).value, actual)
      ensures Lt(Parse(keys[j]).value, v)
    {
      assert c.Chosen?;
      LeLtTransitive(Parse(keys[j]).value, c.version, v);
    }
    forall j | 0 <= j < i + 1 && Qualifies(Parse(keys[j]).value, actual)
      ensures Le(Parse(keys[j]).value, v)
    {
      if j < i {
        assert Lt(Parse(keys[j]).value, v);
      }
    }
  }

  lemma StepKeeps(keys: seq<string>, actual: Version, i: nat, c: Choice, v: Version)
    requires i < |keys| && Facts(keys, actual, i, c) && Parse(keys[i]) == Some(v)
    requires !(Lt(Current(c), v) && Le(v, actual))
    ensures Facts(keys, actual, i + 1, c)
  {
    NotLtIsGe(Current(c), v);
    if c.Chosen? {
      forall j | 0 <= j < i + 1 && Qualifies(Parse(keys[j]).value, actual)
        ensures Le(Parse(keys[j]).value, c.version)
      {
        if j == i {
          assert Le(v, c.version);
        }
      }
    } else {
      forall j | 0 <= j < i + 1
        ensures !Qualifies(Parse(keys[j]).value, actual)
      {
        if j == i {
          assert !Lt(Floor, v) || !Le(v, actual);
        }
      }
    }
  }

  /** The keys of a dict, in order. */
  function Keys<W>(d: Dict<W>): (r: seq<string>)
    ensures |r| == |d| && forall i :: 0 <= i < |d| ==> r[i] == d[i].0
  {
    seq(|d|, i requires 0 <= i < |d| => d[i].0)
  }

  /** The key the search leaves in `python_version_key`. */
  function ChosenKey(keys: seq<string>, c: Choice): string
    requires c.Chosen? ==> c.index < |keys|
  {
    if c.Chosen? then keys[c.index] else FloorKey
  }

  // ---------------------------------------------------------------------------
  // source()

  /** `source()` as written: the guard `python_version is Version("1.0")`
      compares with a freshly built object by identity, so it never raises,
      and with no qualifying wheel the key stays `"1.0"`. */
  function SourceAsWritten<W>(sources: Dict<Dict<W>>, os: Option<string>, actual: Version): (r: Result<W>)
    ensures r != Err(InvalidConfiguration("No compatible Python Version"))
    ensures OsKey(sources, os).Err? ==> r == Err(OsKey(sources, os).error)
  {
    var osKey :- OsKey(sources, os);
    var wheels := Get(sources, osKey).value;
    var choice :- Scan(Keys(wheels), actual);
    Index(wheels, ChosenKey(Keys(wheels), choice))
  }

  /** `source()` as intended: no qualifying wheel is an invalid configuration. */
  function Source<W>(sources: Dict<Dict<W>>, os: Option<string>, actual: Version): (r: Result<W>)
    ensures OsKey(sources, os).Err? ==> r == Err(OsKey(sources, os).error)
  {
    var osKey :- OsKey(sources, os);
    var wheels := Get(sources, osKey).value;
    var choice :- Scan(Keys(wheels), actual);
    if choice.Initial? then Err(InvalidConfiguration("No compatible Python Version"))
    else Index(wheels, Keys(wheels)[choice.index])
  }

  /** The wheels `source()` searches, once the sources key is found. */
  function WheelsFor<W>(sources: Dict<Dict<W>>, os: Option<string>): Dict<W>
    requires OsKey(sources, os).Ok?
  {
    Get(sources, OsKey(sources, os).value).value
  }

  /** As written, a search that finds nothing looks up the key `"1.0"`:
      `KeyError` unless a wheel is listed under that very key. */
  lemma AsWrittenLooksUpFloorKey<W>(sources: Dict<Dict<W>>, os: Option<string>, actual: Version)
    requires OsKey(sources, os).Ok?
    requires AllParse(Keys(WheelsFor(sources, os)))
    requires forall i :: 0 <= i < |WheelsFor(sources, os)| ==> !Qualifies(Parse(WheelsFor(sources, os)[i].0).value, actual)
    ensures SourceAsWritten(sources, os, actual) == Index(WheelsFor(sources, os), FloorKey)
    ensures !HasKey(WheelsFor(sources, os), FloorKey) ==> SourceAsWritten(sources, os, actual) == Err(KeyError(FloorKey))
  {
    var keys := Keys(WheelsFor(sources, os));
    assert forall j :: 0 <= j < |keys| ==> keys[j] == WheelsFor(sources, os)[j].0;
  }

  /** As intended, a search that finds nothing is reported as such. */
  lemma NoCompatibleVersion<W>(sources: Dict<Dict<W>>, os: Option<string>, actual: Version)
    requires OsKey(sources, os).Ok?
    requires AllParse(Keys(WheelsFor(sources, os)))
    requires forall i :: 0 <= i < |WheelsFor(sources, os)| ==> !Qualifies(Parse(WheelsFor(sources, os)[i].0).value, actual)
    ensures Source(sources, os, actual) == Err(InvalidConfiguration("No compatible Python Version"))
  {
    var keys := Keys(WheelsFor(sources, os));
    assert forall j :: 0 <= j < |keys| ==> keys[j] == WheelsFor(sources, os)[j].0;
  }

  /** When a wheel qualifies, both readings take the wheel of the greatest
      qualifying version. */
  lemma QualifyingWheelIsTaken<W>(sources: Dict<Dict<W>>, os: Option<string>, actual: Version, i: nat)
    requires OsKey(sources, os).Ok? && DistinctKeys(WheelsFor(sources, os))
    requires AllParse(Keys(WheelsFor(sources, os)))
    requires i < |WheelsFor(sources, os)| && Qualifies(Parse(WheelsFor(sources, os)[i].0).value, actual)
    ensures Source(sources, os, actual) == SourceAsWritten(sources, os, actual)
    ensures exists k :: (0 <= k < |WheelsFor(sources, os)| && Source(sources, os, actual) == Ok(WheelsFor(sources, os)[k].1)
      && Qualifies(Parse(WheelsFor(sources, os)[k].0).value, actual)
      && Le(Parse(WheelsFor(sources, os)[i].0).value, Parse(WheelsFor(sources, os)[k].0).value))
  {
    var wheels := WheelsFor(sources, os);
    var keys := Keys(wheels);
    var c := Scan(keys, actual).value;
    assert keys[i] == wheels[i].0;
    assert c.Chosen?;
    var k := c.index;
    assert keys[k] == wheels[k].0;
    IndexOfDistinct(wheels, k);
  }

  /** With distinct keys, looking up the key at a position reads that position. */
  lemma IndexOfDistinct<W>(d: Dict<W>, k: nat)
    requires DistinctKeys(d) && k < |d|
    ensures Index(d, d[k].0) == Ok(d[k].1)
  {
    assert HasKey(d, d[k].0);
    var i := KeyIndex(d, d[k].0);
    assert i == k;
  }

  /** twisted's `source()`: the actual version is that of the `cpython`
      dependency, and the search is the one written, so a search that finds
      nothing looks up the key `1.0`. */
  function TwistedSource<W>(sources: Dict<Dict<W>>, os: Option<string>, cpythonVersion: string): (r: Result<W>)
    ensures OsKey(sources, os).Err? ==> r == Err(OsKey(sources, os).error)
    ensures Parse(cpythonVersion).None? && OsKey(sources, os).Ok? ==> r == Err(ConanError("Invalid version '" + cpythonVersion + "'"))
    ensures Parse(cpythonVersion).Some? ==> r == SourceAsWritten(sources, os, Parse(cpythonVersion).value)
    ensures r != Err(InvalidConfiguration("No compatible Python Version"))
  {
    var osKey :- OsKey(sources, os);
    var actual :- ToolsVersion(cpythonVersion);
    SourceAsWritten(sources, os, actual)
  }

  /** For twisted, a Python version no wheel fits raises `KeyError('1.0')`
      unless a wheel is listed under `1.0`, where the intended reading reports
      that no Python version is compatible. */
  lemma TwistedRaisesKeyErrorWhenNothingQualifies<W>(sources: Dict<Dict<W>>, os: Option<string>, cpythonVersion: string)
    requires OsKey(sources, os).Ok? && Parse(cpythonVersion).Some?
    requires AllParse(Keys(WheelsFor(sources, os))) && !HasKey(WheelsFor(sources, os), FloorKey)
    requires forall i :: 0 <= i < |WheelsFor(sources, os)| ==>
      !Qualifies(Parse(WheelsFor(sources, os)[i].0).value, Parse(cpythonVersion).value)
    ensures TwistedSource(sources, os, cpythonVersion) == Err(KeyError(FloorKey))
    ensures TwistedSourceIntended(sources, os, cpythonVersion) == Err(InvalidConfiguration("No compatible Python Version"))
  {
    AsWrittenLooksUpFloorKey(sources, os, Parse(cpythonVersion).value);
    NoCompatibleVersion(sources, os, Parse(cpythonVersion).value);
  }

  /** twisted's `source()` with the guard working as intended. */
  function TwistedSourceIntended<W>(sources: Dict<Dict<W>>, os: Option<string>, cpythonVersion: string): (r: Result<W>)
    ensures OsKey(sources, os).Err? ==> r == Err(OsKey(sources, os).error)
    ensures Parse(cpythonVersion).None? && OsKey(sources, os).Ok? ==> r == Err(ConanError("Invalid version '" + cpythonVersion + "'"))
    ensures Parse(cpythonVersion).Some? ==> r == Source(sources, os, Parse(cpythonVersion).value)
  {
    var osKey :- OsKey(sources, os);
    var actual :- ToolsVersion(cpythonVersion);
    Source(sources, os, actual)
  }

  /** The `python_version` option of pyparsing, `3.0` unless set. */
  function PyparsingPythonVersion(option: Option<string>): (r: string)
    ensures option.None? ==> r == "3.0"
    ensures option.Some? ==> r == option.value
  {
    option.GetOr("3.0")
  }

  /** pyparsing's `source()`: the actual version is the `python_version`
      option, and the search is the one written. */
  function PyparsingSource<W>(sources: Dict<Dict<W>>, os: Option<string>, pythonVersion: Option<string>): (r: Result<W>)
    ensures OsKey(sources, os).Err? ==> r == Err(OsKey(sources, os).error)
    ensures Parse(PyparsingPythonVersion(pythonVersion)).None? && OsKey(sources, os).Ok? ==>
      r == Err(ConanError("Invalid version '" + PyparsingPythonVersion(pythonVersion) + "'"))
    ensures Parse(PyparsingPythonVersion(pythonVersion)).Some? ==>
      r == SourceAsWritten(sources, os, Parse(PyparsingPythonVersion(pythonVersion)).value)
    ensures r != Err(InvalidConfiguration("No compatible Python Version"))
  {
    var osKey :- OsKey(sources, os);
    var actual :- ToolsVersion(PyparsingPythonVersion(pythonVersion));
    SourceAsWritten(sources, os, actual)
  }

  /** pyparsing's `source()` with the guard working as intended. */
  function PyparsingSourceIntended<W>(sources: Dict<Dict<W>>, os: Option<string>, pythonVersion: Option<string>): (r: Result<W>)
    ensures OsKey(sources, os).Err? ==> r == Err(OsKey(sources, os).error)
    ensures Parse(PyparsingPythonVersion(pythonVersion)).None? && OsKey(sources, os).Ok? ==>
      r == Err(ConanError("Invalid version '" + PyparsingPythonVersion(pythonVersion) + "'"))
    ensures Parse(PyparsingPythonVersion(pythonVersion)).Some? ==>
      r == Source(sources, os, Parse(PyparsingPythonVersion(pythonVersion)).value)
  {
    var osKey :- OsKey(sources, os);
    var actual :- ToolsVersion(PyparsingPythonVersion(pythonVersion));
    Source(sources, os, actual)
  }

  // ---------------------------------------------------------------------------
  // package_id()

  datatype PackageId = PinRelease | HeaderOnly

  /** `package_id()`: `len(sources) >= 1 or "Any" not in sources`. An empty
      dict has no `Any` key, so the condition always holds and `header_only`
      is never reached. */
  function PackageIdOf<W>(sources: Dict<W>): (r: PackageId)
    ensures r == PinRelease
  {
    if |sources| >= 1 || !HasKey(sources, "Any") then PinRelease else HeaderOnly
  }
}
