/** The shared base of the LulzBot recipes: which entry of `conandata.yml` a
    recipe uses for its channel and version, and the Windows spelling of the
    Python paths it runs.

    `conan_data` is an ordered dict from keys to entries of any type `D`.
    Version parsing and ordering are those of `Versions`; a recipe version
    Conan cannot parse raises `ConanException`.
 */
module LulzBase {
  import opened Wrappers
  import opened Strings
  import opened Seqs
  import opened Versions
  import opened Json

  // ---------------------------------------------------------------------------
  // The greatest version of a list

  /** `i` is the position `sorted(...)[-1]` picks: a greatest version, and the
      last of the greatest ones, since Python's sort is stable. */
  predicate IsLastGreatest(cands: seq<(string, Version)>, i: nat)
    requires i < |cands|
  {
    (forall j :: 0 <= j < |cands| ==> Le(cands[j].1, cands[i].1))
    && (forall j :: i < j < |cands| ==> !Le(cands[i].1, cands[j].1))
  }

  /** The position of the last greatest version. */
  function BestIndex(cands: seq<(string, Version)>): (i: nat)
    requires |cands| > 0
    ensures i < |cands| && IsLastGreatest(cands, i)
    decreases |cands|
  {
    if |cands| == 1 then
      LeReflexive(cands[0].1);
      0
    else
      var n := |cands| - 1;
      var b := BestIndex(cands[..n]);
      if Le(cands[b].1, cands[n].1) then
        BestIsLast(cands, b);
        n
      else
        BestStaysBefore(cands, b);
        b
  }

  /** A last element at least the greatest of the others is the last greatest. */
  lemma BestIsLast(cands: seq<(string, Version)>, b: nat)
    requires |cands| > 1 && b < |cands| - 1 && IsLastGreatest(cands[..|cands| - 1], b)
    requires Le(cands[b].1, cands[|cands| - 1].1)
    ensures IsLastGreatest(cands, |cands| - 1)
  {
    var n := |cands| - 1;
    forall j | 0 <= j < |cands|
      ensures Le(cands[j].1, cands[n].1)
    {
      if j < n {
        assert Le(cands[..n][j].1, cands[..n][b].1);
        LeTransitive(cands[j].1, cands[b].1, cands[n].1);
      } else {
        LeReflexive(cands[n].1);
      }
    }
  }

  /** A last element below the greatest of the others changes nothing. */
  lemma BestStaysBefore(cands: seq<(string, Version)>, b: nat)
    requires |cands| > 1 && b < |cands| - 1 && IsLastGreatest(cands[..|cands| - 1], b)
    requires !Le(cands[b].1, cands[|cands| - 1].1)
    ensures IsLastGreatest(cands, b)
  {
    var n := |cands| - 1;
    LeTotal(cands[b].1, cands[n].1);
    forall j | 0 <= j < n
      ensures Le(cands[j].1, cands[b].1)
    {
      assert Le(cands[..n][j].1, cands[..n][b].1);
    }
    forall j | b < j < n
      ensures !Le(cands[b].1, cands[j].1)
    {
      assert !Le(cands[..n][b].1, cands[..n][j].1);
    }
  }

  /** Only one position is the last greatest, so `BestIndex` is the element a
      stable sort puts last. */
  lemma LastGreatestUnique(cands: seq<(string, Version)>, i: nat, k: nat)
    requires i < |cands| && k < |cands|
    requires IsLastGreatest(cands, i) && IsLastGreatest(cands, k)
    ensures i == k
  {
    assert Le(cands[i].1, cands[k].1) && Le(cands[k].1, cands[i].1);
  }

  // ---------------------------------------------------------------------------
  // The keys of conandata that are versions

  /** The keys `tools.Version(k)` accepts, with their versions, in dict order;
      the others are skipped. */
  function Candidates<D>(data: Dict<D>): (r: seq<(string, Version)>)
    ensures forall j :: 0 <= j < |r| ==> Parse(r[j].0) == Some(r[j].1)
    ensures forall i :: 0 <= i < |data| && Parse(data[i].0).Some? ==> (data[i].0, Parse(data[i].0).value) in r
  {
    if |data| == 0 then []
    else
      var rest := Candidates(data[1..]);
      assert forall i :: 1 <= i < |data| ==> data[i] == data[1..][i - 1];
      match Parse(data[0].0)
      case None => rest
      case Some(v) => [(data[0].0, v)] + rest
  }

  /** Where the candidates come from: increasing positions in conandata, one
      per key that parses. */
  lemma {:induction false} CandidateOrigins<D>(data: Dict<D>) returns (pos: seq<nat>)
    ensures |pos| == |Candidates(data)| && Increasing(pos)
    ensures forall k {:trigger pos[k]} :: 0 <= k < |pos| ==> pos[k] < |data| && Candidates(data)[k].0 == data[pos[k]].0
    ensures forall j :: 0 <= j < |data| && Parse(data[j].0).Some? ==> j in pos
    decreases |data|
  {
    if |data| == 0 {
      return [];
    }
    var rest := CandidateOrigins(data[1..]);
    var shifted := Shift(rest);
    ShiftedOrigins(data, rest);
    if Parse(data[0].0).Some? {
      pos := [0] + shifted;
      ConsOrigins(data, shifted, pos);
    } else {
      pos := shifted;
      assert Candidates(data) == Candidates(data[1..]);
    }
  }

  /** A parsing first key goes in front of the tail's origins. */
  lemma ConsOrigins<D>(data: Dict<D>, shifted: seq<nat>, pos: seq<nat>)
    requires |data| > 0 && Parse(data[0].0).Some? && |shifted| == |Candidates(data[1..])| && pos == [0] + shifted
    requires Increasing(shifted) && forall k :: 0 <= k < |shifted| ==> shifted[k] > 0
    requires forall k {:trigger shifted[k]} :: 0 <= k < |shifted| ==> shifted[k] < |data| && Candidates(data[1..])[k].0 == data[shifted[k]].0
    ensures |Candidates(data)| == |pos| && Increasing(pos)
    ensures forall k {:trigger pos[k]} :: 0 <= k < |pos| ==> pos[k] < |data| && Candidates(data)[k].0 == data[pos[k]].0
  {
    ConsIncreasing(shifted);
    var tail := Candidates(data[1..]);
    var whole := Candidates(data);
    assert whole == [(data[0].0, Parse(data[0].0).value)] + tail;
    forall k {:trigger pos[k]} | 0 < k < |pos| ensures pos[k] < |data| && whole[k].0 == data[pos[k]].0 {
      assert pos[k] == shifted[k - 1] && whole[k] == tail[k - 1];
    }
  }

  /** The origins of the tail's candidates, one further on, are positions in
      the whole of conandata. */
  lemma ShiftedOrigins<D>(data: Dict<D>, rest: seq<nat>)
    requires |data| > 0 && |rest| == |Candidates(data[1..])| && Increasing(rest)
    requires forall k {:trigger rest[k]} :: 0 <= k < |rest| ==> rest[k] < |data[1..]| && Candidates(data[1..])[k].0 == data[1..][rest[k]].0
    requires forall j :: 0 <= j < |data[1..]| && Parse(data[1..][j].0).Some? ==> j in rest
    ensures Increasing(Shift(rest)) && forall k :: 0 <= k < |rest| ==> Shift(rest)[k] > 0
    ensures forall k {:trigger Shift(rest)[k]} :: 0 <= k < |rest| ==> Shift(rest)[k] < |data| && Candidates(data[1..])[k].0 == data[Shift(rest)[k]].0
    ensures forall j :: 0 < j < |data| && Parse(data[j].0).Some? ==> j in Shift(rest)
  {
    var shifted := Shift(rest);
    ShiftIncreasing(rest);
    forall k {:trigger shifted[k]} | 0 <= k < |rest| ensures shifted[k] < |data| && Candidates(data[1..])[k].0 == data[shifted[k]].0 {
      assert data[1..][rest[k]] == data[shifted[k]];
    }
    forall j | 0 < j < |data| && Parse(data[j].0).Some? ensures j in shifted {
      assert data[1..][j - 1] == data[j];
      var k :| 0 <= k < |rest| && rest[k] == j - 1;
      assert shifted[k] == j;
    }
  }

  /** The key parses to a version at most `rv`. */
  predicate Below(k: string, rv: Version) {
    Parse(k).Some? && Le(Parse(k).value, rv)
  }

  /** The key parses to a version whose major.minor.patch is at most that of `rv`. */
  predicate CoreBelow(k: string, rv: Version) {
    Parse(k).Some? && Le(Core(Parse(k).value), Core(rv))
  }

  /** `k` is a key of the greatest version at most `rv`. */
  predicate GreatestBelow<D>(data: Dict<D>, k: string, rv: Version) {
    HasKey(data, k) && Below(k, rv)
    && forall i :: 0 <= i < |data| && Below(data[i].0, rv) ==> Le(Parse(data[i].0).value, Parse(k).value)
  }

  /** The key the version search settles on: the greatest version key at most
      the recipe version; failing that, the greatest one whose
      major.minor.patch is at most the recipe's; failing that, none. */
  function Selected<D>(data: Dict<D>, rv: Version): (r: Option<string>)
    ensures r.Some? ==> HasKey(data, r.value) && Parse(r.value).Some?
    ensures (exists i :: 0 <= i < |data| && Below(data[i].0, rv)) ==> r.Some? && GreatestBelow(data, r.value, rv)
    ensures (forall i :: 0 <= i < |data| ==> !Below(data[i].0, rv)) && (exists i :: 0 <= i < |data| && CoreBelow(data[i].0, rv)) ==>
      r.Some? && CoreBelow(r.value, rv)
      && forall i :: 0 <= i < |data| && CoreBelow(data[i].0, rv) ==> Le(Parse(data[i].0).value, Parse(r.value).value)
    ensures (forall i :: 0 <= i < |data| ==> !CoreBelow(data[i].0, rv) && !Below(data[i].0, rv)) ==> r.None?
    ensures r.Some? && (exists i :: 0 <= i < |data| && Below(data[i].0, rv)) ==> LastOfGreatest(data, r.value, rv, Below)
    ensures r.Some? && (forall i :: 0 <= i < |data| ==> !Below(data[i].0, rv)) ==> LastOfGreatest(data, r.value, rv, CoreBelow)
  {
    var cands := Candidates(data);
    var sat := Filter(cands, (c: (string, Version)) => Le(c.1, rv));
    if |sat| > 0 then
      var b := BestIndex(sat);
      SelectedGreatest(data, rv, cands, sat, b, (c: (string, Version)) => Le(c.1, rv), Below);
      Some(sat[b].0)
    else
      var sat2 := Filter(cands, (c: (string, Version)) => Le(Core(c.1), Core(rv)));
      NoneBelow(data, rv, cands, sat, (c: (string, Version)) => Le(c.1, rv), Below);
      if |sat2| > 0 then
        var b := BestIndex(sat2);
        SelectedGreatest(data, rv, cands, sat2, b, (c: (string, Version)) => Le(Core(c.1), Core(rv)), CoreBelow);
        Some(sat2[b].0)
      else
        NoneBelow(data, rv, cands, sat2, (c: (string, Version)) => Le(Core(c.1), Core(rv)), CoreBelow);
        None
  }

  /** `k` is a key at some entry after which no key the test accepts has a
      version at least `k`'s: of equal greatest versions, the one a stable
      sort puts last. */
  predicate LastOfGreatest<D>(data: Dict<D>, k: string, rv: Version, q: (string, Version) -> bool) {
    Parse(k).Some? &&
    exists i :: 0 <= i < |data| && data[i].0 == k &&
      forall j :: i < j < |data| && q(data[j].0, rv) && Parse(data[j].0).Some? ==> !Le(Parse(k).value, Parse(data[j].0).value)
  }

  /** A greatest accepted key that is also the last of the greatest is
      unique, so the contract of `Selected` fixes its result. */
  lemma SelectionDetermined<D>(data: Dict<D>, rv: Version, q: (string, Version) -> bool, k1: string, k2: string)
    requires forall k :: q(k, rv) ==> Parse(k).Some?
    requires q(k1, rv) && q(k2, rv)
    requires forall i :: 0 <= i < |data| && q(data[i].0, rv) ==> Le(Parse(data[i].0).value, Parse(k1).value)
    requires forall i :: 0 <= i < |data| && q(data[i].0, rv) ==> Le(Parse(data[i].0).value, Parse(k2).value)
    requires LastOfGreatest(data, k1, rv, q) && LastOfGreatest(data, k2, rv, q)
    ensures k1 == k2
  {
    var i1 :| 0 <= i1 < |data| && data[i1].0 == k1 &&
      forall j :: i1 < j < |data| && q(data[j].0, rv) && Parse(data[j].0).Some? ==> !Le(Parse(k1).value, Parse(data[j].0).value);
    var i2 :| 0 <= i2 < |data| && data[i2].0 == k2 &&
      forall j :: i2 < j < |data| && q(data[j].0, rv) && Parse(data[j].0).Some? ==> !Le(Parse(k2).value, Parse(data[j].0).value);
    assert Le(Parse(data[i1].0).value, Parse(k2).value);
    assert Le(Parse(data[i2].0).value, Parse(k1).value);
    assert i1 == i2;
  }

  /** The last greatest of the kept candidates is greatest among all keys the
      test accepts, and the last of those. */
  lemma SelectedGreatest<D>(data: Dict<D>, rv: Version, cands: seq<(string, Version)>, sat: seq<(string, Version)>, b: nat,
                            p: ((string, Version)) -> bool, q: (string, Version) -> bool)
    requires cands == Candidates(data) && sat == Filter(cands, p)
    requires forall k :: q(k, rv) <==> Parse(k).Some? && p((k, Parse(k).value))
    requires b < |sat| && IsLastGreatest(sat, b)
    ensures HasKey(data, sat[b].0) && Parse(sat[b].0) == Some(sat[b].1) && q(sat[b].0, rv)
    ensures forall i :: 0 <= i < |data| && q(data[i].0, rv) ==> Le(Parse(data[i].0).value, sat[b].1)
    ensures LastOfGreatest(data, sat[b].0, rv, q)
  {
    FilterSubset(cands, p);
    assert sat[b] in cands && p(sat[b]);
    forall i | 0 <= i < |data| && q(data[i].0, rv)
      ensures Le(Parse(data[i].0).value, sat[b].1)
    {
      var c := (data[i].0, Parse(data[i].0).value);
      assert c in cands && p(c);
      assert c in sat;
      var j :| 0 <= j < |sat| && sat[j] == c;
      assert Le(sat[j].1, sat[b].1);
    }
    SelectedIsLast(data, rv, cands, sat, b, p, q);
  }

  /** No key after the one taken, among those the test accepts, has a version
      at least the taken one's: the taken key comes from the last greatest
      candidate, and candidates keep the order of conandata. */
  lemma SelectedIsLast<D>(data: Dict<D>, rv: Version, cands: seq<(string, Version)>, sat: seq<(string, Version)>, b: nat,
                          p: ((string, Version)) -> bool, q: (string, Version) -> bool)
    requires cands == Candidates(data) && sat == Filter(cands, p)
    requires forall k :: q(k, rv) <==> Parse(k).Some? && p((k, Parse(k).value))
    requires b < |sat| && IsLastGreatest(sat, b)
    ensures HasKey(data, sat[b].0)
    ensures LastOfGreatest(data, sat[b].0, rv, q)
  {
    var fpos := FilterPositions(cands, p);
    var cpos := CandidateOrigins(data);
    var m := fpos[b];
    var i := cpos[m];
    assert sat[b] == cands[m];
    assert data[i].0 == sat[b].0;
    forall j | i < j < |data| && q(data[j].0, rv) && Parse(data[j].0).Some?
      ensures !Le(sat[b].1, Parse(data[j].0).value)
    {
      assert j in cpos;
      var n :| 0 <= n < |cpos| && cpos[n] == j;
      IncreasingIndex(cpos, m, n);
      assert cands[n].0 == data[j].0 && Parse(cands[n].0) == Some(cands[n].1);
      assert p(cands[n]);
      assert n in fpos;
      var t :| 0 <= t < |fpos| && fpos[t] == n;
      IncreasingIndex(fpos, b, t);
      assert sat[t] == cands[n];
    }
  }

  /** An empty filter means no key passes the test. */
  lemma NoneBelow<D>(data: Dict<D>, rv: Version, cands: seq<(string, Version)>, sat: seq<(string, Version)>,
                     p: ((string, Version)) -> bool, q: (string, Version) -> bool)
    requires cands == Candidates(data) && sat == Filter(cands, p)
    requires forall k :: q(k, rv) <==> Parse(k).Some? && p((k, Parse(k).value))
    requires |sat| == 0
    ensures forall i :: 0 <= i < |data| ==> !q(data[i].0, rv)
  {
    forall i | 0 <= i < |data|
      ensures !q(data[i].0, rv)
    {
      if Parse(data[i].0).Some? {
        var c := (data[i].0, Parse(data[i].0).value);
        assert c in cands;
      }
    }
  }

  // ---------------------------------------------------------------------------
  // _lulz_data

  /** `_lulz_data()`. `version` is `None` when reading the recipe version
      raises (it is then `"None"`), and an empty version is a falsy one;
      `channel` is `None` when reading the channel raises (it is then `""`).
      A missing key raises `KeyError`. */
  function LulzData<D>(data: Dict<D>, version: Option<string>, channel: Option<string>): (r: Result<D>)
    ensures channel.GetOr("") == "" || channel == Some("testing") ==> r == Index(data, "None")
    ensures channel.GetOr("") !in {"", "testing", "stable", "_"} ==>
      r == if HasKey(data, channel.value) then Index(data, channel.value) else Index(data, "None")
    ensures channel == Some("stable") || channel == Some("_") ==>
      var rv := version.GetOr("None");
      (rv == "" ==> r == Index(data, "None"))
      && (rv != "" && HasKey(data, rv) ==> r == Index(data, rv))
      && (rv != "" && !HasKey(data, rv) && Parse(rv).None? ==> r.Err? && r.error.ConanError?)
  {
    var recipeVersion := version.GetOr("None");
    var ch := channel.GetOr("");
    if ch != "" then
      if ch == "testing" then Index(data, "None")
      else if ch == "stable" || ch == "_" || ch == "" then StableData(data, recipeVersion)
      else if HasKey(data, ch) then Index(data, ch)
      else Index(data, "None")
    else Index(data, "None")
  }

  /** The stable channel's entry: the recipe version's own entry when it is a
      key, else that of the key the version search selects, else `None`. */
  function StableData<D>(data: Dict<D>, recipeVersion: string): Result<D> {
    if recipeVersion == "" then Index(data, "None")
    else if HasKey(data, recipeVersion) then Index(data, recipeVersion)
    else
      match Parse(recipeVersion)
      case None => Err(ConanError("Invalid version '" + recipeVersion + "'"))
      case Some(rv) =>
        match Selected(data, rv)
        case Some(k) => Index(data, k)
        case None => Index(data, "None")
  }

  /** On the stable channel a recipe version that is not a key takes the entry
      of the greatest version key at most it. */
  lemma StableTakesGreatestBelow<D>(data: Dict<D>, version: string, rv: Version, i: nat)
    requires version != "" && !HasKey(data, version) && Parse(version) == Some(rv)
    requires i < |data| && Below(data[i].0, rv)
    ensures exists k :: GreatestBelow(data, k, rv) && LulzData(data, Some(version), Some("stable")) == Index(data, k)
  {
    var k := Selected(data, rv).value;
    StableUsesSelected(data, version, rv, k);
  }

  /** On the stable channel a recipe version that is not a key takes the
      entry of the key the version search selects. */
  lemma StableUsesSelected<D>(data: Dict<D>, version: string, rv: Version, k: string)
    requires version != "" && !HasKey(data, version) && Parse(version) == Some(rv)
    requires Selected(data, rv) == Some(k)
    ensures LulzData(data, Some(version), Some("stable")) == Index(data, k)
  {
    StableIsNamed();
    assert StableData(data, version) == Index(data, k);
  }

  lemma StableIsNamed()
    ensures "stable" != "" && "stable" != "testing"
  {
    assert "stable"[0] != "testing"[0];
  }

  /** With no version key at most the recipe version, not even by
      major.minor.patch, the stable channel falls back to the `None` entry. */
  lemma StableFallsBackToNone<D>(data: Dict<D>, version: string, rv: Version)
    requires version != "" && !HasKey(data, version) && Parse(version) == Some(rv)
    requires forall i :: 0 <= i < |data| ==> !CoreBelow(data[i].0, rv) && !Below(data[i].0, rv)
    ensures LulzData(data, Some(version), Some("_")) == Index(data, "None")
  {
  }

  /** An empty channel never reaches the `stable`/`_`/`""` branch: it reads
      the `None` entry whatever the version, so that alternative is dead. */
  lemma EmptyChannelIsTesting<D>(data: Dict<D>, version: Option<string>)
    ensures LulzData(data, version, Some("")) == LulzData(data, version, Some("testing")) == Index(data, "None")
  {
  }

  // ---------------------------------------------------------------------------
  // Paths

  /** `_python_venv_bin_path` */
  function VenvBinPath(os: string): (r: string)
    ensures r == "Scripts" <==> os == "Windows"
    ensures r == "bin" <==> os != "Windows"
  {
    if os == "Windows" then "Scripts" else "bin"
  }

  /** A path component as written on Windows: in double quotes when it holds
      a space. */
  function QuotePart(p: string): (r: string)
    ensures ' ' in p ==> |r| == |p| + 2 && r[0] == '"' && r[|r| - 1] == '"' && r[1..|r| - 1] == p
    ensures ' ' !in p ==> r == p
  {
    if ' ' in p then "\"" + p + "\"" else p
  }

  /** Removing the quotes `QuotePart` adds. */
  function UnquotePart(p: string): string {
    if |p| >= 2 && p[0] == '"' && p[|p| - 1] == '"' && ' ' in p[1..|p| - 1] then p[1..|p| - 1] else p
  }

  /** Quoting loses nothing: every component can be read back. */
  lemma UnquoteQuotePart(p: string)
    ensures UnquotePart(QuotePart(p)) == p
  {
    if ' ' !in p && |p| >= 2 {
      assert forall c :: c in p[1..|p| - 1] ==> c in p;
    }
  }

  /** `Path(*[f'"{p}"' if " " in p else p for p in path.parts])` on Windows;
      the parts are unchanged elsewhere. */
  function WindowsParts(os: string, parts: seq<string>): (r: seq<string>)
    ensures |r| == |parts|
    ensures forall i :: 0 <= i < |parts| ==> r[i] == if os == "Windows" then QuotePart(parts[i]) else parts[i]
    ensures forall i :: 0 <= i < |parts| ==> (r[i] != parts[i] <==> os == "Windows" && ' ' in parts[i])
  {
    if os == "Windows" then seq(|parts|, i requires 0 <= i < |parts| => QuotePart(parts[i])) else parts
  }

  function UnquoteParts(parts: seq<string>): (r: seq<string>)
    ensures |r| == |parts| && forall i :: 0 <= i < |parts| ==> r[i] == UnquotePart(parts[i])
  {
    seq(|parts|, i requires 0 <= i < |parts| => UnquotePart(parts[i]))
  }

  /** The quoted Windows path names the same components. */
  lemma WindowsPartsRoundTrip(parts: seq<string>)
    ensures UnquoteParts(WindowsParts("Windows", parts)) == parts
  {
    var u := UnquoteParts(WindowsParts("Windows", parts));
    forall i | 0 <= i < |parts|
      ensures u[i] == parts[i]
    {
      UnquoteQuotePart(parts[i]);
    }
  }

  /** `_python_interp`: the interpreter of the `cpython` dependency when there
      is one, else the running one, in Windows spelling on Windows. */
  function PythonInterp(os: string, cpython: Option<seq<string>>, executable: seq<string>): (r: seq<string>)
    ensures cpython.Some? ==> r == WindowsParts(os, cpython.value)
    ensures cpython.None? ==> r == WindowsParts(os, executable)
  {
    WindowsParts(os, if cpython.Some? then cpython.value else executable)
  }
}
