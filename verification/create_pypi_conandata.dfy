/** `scripts/create_pypi_conandata.py`: the `conandata.yml` sources table
    built from a package's PyPI release list. The PyPI query and the YAML
    writing are outside the model; `releases` is the response's `releases`
    object (`None` for JSON `null`), each release with its list of files.
 */
module PypiConandata {
  import opened Wrappers
  import opened Json

  /** One file of a release: its `packagetype`, `url` and `digests.sha256`. */
  datatype FileInfo = FileInfo(packageType: string, url: string, sha256: string)

  /** A `conandata` entry: `{"url": ..., "sha256": ...}`. */
  datatype Source = Source(url: string, sha256: string)

  type Releases = Dict<seq<FileInfo>>

  predicate IsWheel(f: FileInfo) {
    f.packageType == "bdist_wheel"
  }

  function SourceOf(f: FileInfo): Source {
    Source(f.url, f.sha256)
  }

  /** The inner loop over one release's files: each wheel overwrites the
      release's entry. */
  function AddWheels(acc: Dict<Source>, release: string, files: seq<FileInfo>): Dict<Source>
    decreases |files|
  {
    if |files| == 0 then acc
    else AddWheels(if IsWheel(files[0]) then Put(acc, release, SourceOf(files[0])) else acc, release, files[1..])
  }

  /** The outer loop over the releases in response order. */
  function AddReleases(acc: Dict<Source>, releases: Releases): Dict<Source>
    decreases |releases|
  {
    if |releases| == 0 then acc
    else AddReleases(AddWheels(acc, releases[0].0, releases[0].1), releases[1..])
  }

  /** The YAML document `main()` writes, `{"sources": conandata}`; nothing is
      written when the response has no release list. */
  function Conandata(releases: Option<Releases>): (r: Option<Dict<Dict<Source>>>)
    ensures r.None? <==> releases.None?
    ensures r.Some? ==> |r.value| == 1 && r.value[0].0 == "sources"
  {
    if releases.None? then None
    else Some([("sources", AddReleases([], releases.value))])
  }

  /** The last wheel of a release, if it has one. */
  function LastWheel(files: seq<FileInfo>): (r: Option<FileInfo>)
    ensures r.None? <==> forall i :: 0 <= i < |files| ==> !IsWheel(files[i])
    ensures r.Some? ==> exists i :: (0 <= i < |files| && files[i] == r.value && IsWheel(files[i]) &&
      forall j :: i < j < |files| ==> !IsWheel(files[j]))
    decreases |files|
  {
    if |files| == 0 then None
    else
      var later := LastWheel(files[1..]);
      if later.Some? then
        var i :| 0 <= i < |files[1..]| && files[1..][i] == later.value && IsWheel(files[1..][i]) &&
          forall j :: i < j < |files[1..]| ==> !IsWheel(files[1..][j]);
        assert files[i + 1] == later.value && forall j :: i + 1 < j < |files| ==> !IsWheel(files[j]);
        later
      else if IsWheel(files[0]) then
        assert forall j :: 0 < j < |files| ==> files[j] == files[1..][j - 1];
        Some(files[0])
      else
        assert forall j :: 0 < j < |files| ==> files[j] == files[1..][j - 1];
        None
  }

  /** The entry one release contributes: its last wheel, or nothing. */
  function ReleaseSources(release: string, files: seq<FileInfo>): Dict<Source> {
    match LastWheel(files)
    case Some(f) => [(release, SourceOf(f))]
    case None => []
  }

  /** The reference table: every release that has a wheel, in response
      order, with its last wheel. */
  function WheelSources(releases: Releases): Dict<Source>
    decreases |releases|
  {
    if |releases| == 0 then []
    else ReleaseSources(releases[0].0, releases[0].1) + WheelSources(releases[1..])
  }

  lemma HasKeyAppend<V>(a: Dict<V>, b: Dict<V>, k: string)
    ensures HasKey(a + b, k) <==> HasKey(a, k) || HasKey(b, k)
  {
    if HasKey(b, k) {
      var j :| 0 <= j < |b| && b[j].0 == k;
      assert (a + b)[|a| + j].0 == k;
    }
    if HasKey(a, k) {
      var j :| 0 <= j < |a| && a[j].0 == k;
      assert (a + b)[j].0 == k;
    }
  }

  /** Writing a key that is last replaces its value in place. */
  lemma PutLast<V>(acc: Dict<V>, k: string, x: V, v: V)
    requires !HasKey(acc, k)
    ensures Put(acc + [(k, x)], k, v) == acc + [(k, v)]
  {
    var d := acc + [(k, x)];
    assert HasKey(d, k) by {
      assert d[|acc|].0 == k;
    }
    assert KeyIndex(d, k) == |acc|;
  }

  /** Once a release has an entry, its files leave it with the last wheel's
      source, or the entry it had when none of them is a wheel. */
  lemma {:induction false} AddWheelsAfter(acc: Dict<Source>, release: string, x: Source, files: seq<FileInfo>)
    requires !HasKey(acc, release)
    ensures AddWheels(acc + [(release, x)], release, files) ==
      acc + [(release, if LastWheel(files).Some? then SourceOf(LastWheel(files).value) else x)]
    decreases |files|
  {
    if |files| > 0 {
      if IsWheel(files[0]) {
        PutLast(acc, release, x, SourceOf(files[0]));
        AddWheelsAfter(acc, release, SourceOf(files[0]), files[1..]);
      } else {
        AddWheelsAfter(acc, release, x, files[1..]);
      }
    }
  }

  /** A release not yet in the table adds at most its last wheel, at the end. */
  lemma {:induction false} AddWheelsFresh(acc: Dict<Source>, release: string, files: seq<FileInfo>)
    requires !HasKey(acc, release)
    ensures AddWheels(acc, release, files) == acc + ReleaseSources(release, files)
    decreases |files|
  {
    if |files| > 0 {
      if IsWheel(files[0]) {
        assert Put(acc, release, SourceOf(files[0])) == acc + [(release, SourceOf(files[0]))];
        AddWheelsAfter(acc, release, SourceOf(files[0]), files[1..]);
      } else {
        AddWheelsFresh(acc, release, files[1..]);
      }
    } else {
      assert ReleaseSources(release, files) == [];
    }
  }

  /** No release is in the table yet. */
  predicate Fresh(acc: Dict<Source>, releases: Releases) {
    forall i :: 0 <= i < |releases| ==> !HasKey(acc, releases[i].0)
  }

  /** After the first release's entry is added, the others are still fresh. */
  lemma FreshAfterHead(acc: Dict<Source>, releases: Releases)
    requires |releases| > 0 && DistinctKeys(releases) && Fresh(acc, releases)
    ensures Fresh(acc + ReleaseSources(releases[0].0, releases[0].1), releases[1..])
  {
    var head := ReleaseSources(releases[0].0, releases[0].1);
    forall i | 0 <= i < |releases[1..]|
      ensures !HasKey(acc + head, releases[1..][i].0)
    {
      var k := releases[1..][i].0;
      HasKeyAppend(acc, head, k);
      assert k == releases[i + 1].0 != releases[0].0;
      assert !HasKey(acc, releases[i + 1].0);
    }
  }

  lemma DistinctTail<V>(d: Dict<V>)
    requires |d| > 0 && DistinctKeys(d)
    ensures DistinctKeys(d[1..])
  {
    forall i, j | 0 <= i < j < |d[1..]|
      ensures d[1..][i].0 != d[1..][j].0
    {
      assert d[1..][i] == d[i + 1] && d[1..][j] == d[j + 1];
    }
  }

  lemma AppendAssoc<T>(a: seq<T>, b: seq<T>, c: seq<T>)
    ensures a + b + c == a + (b + c)
  {
  }

  lemma AddReleasesStep(acc: Dict<Source>, releases: Releases)
    requires |releases| > 0
    ensures AddReleases(acc, releases) == AddReleases(AddWheels(acc, releases[0].0, releases[0].1), releases[1..])
  {
  }

  lemma WheelSourcesStep(releases: Releases)
    requires |releases| > 0
    ensures WheelSources(releases) == ReleaseSources(releases[0].0, releases[0].1) + WheelSources(releases[1..])
  {
  }

  lemma {:induction false} AddReleasesFresh(acc: Dict<Source>, releases: Releases)
    requires DistinctKeys(releases) && Fresh(acc, releases)
    ensures AddReleases(acc, releases) == acc + WheelSources(releases)
    decreases |releases|
  {
    if |releases| > 0 {
      var rest := releases[1..];
      var head := ReleaseSources(releases[0].0, releases[0].1);
      var w := WheelSources(rest);
      AddWheelsFresh(acc, releases[0].0, releases[0].1);
      FreshAfterHead(acc, releases);
      DistinctTail(releases);
      AddReleasesFresh(acc + head, rest);
      AddReleasesStep(acc, releases);
      WheelSourcesStep(releases);
      AppendAssoc(acc, head, w);
    }
  }

  /** The table the script builds is the reference table: each release with a
      wheel, once, in response order, with its last wheel. */
  lemma ConandataIsWheelSources(releases: Releases)
    requires DistinctKeys(releases)
    ensures Conandata(Some(releases)) == Some([("sources", WheelSources(releases))])
  {
    AddReleasesFresh([], releases);
    assert [] + WheelSources(releases) == WheelSources(releases);
  }

  /** A release has an entry exactly when one of its files is a wheel. */
  lemma {:induction false} WheelSourcesKeys(releases: Releases, k: string)
    ensures HasKey(WheelSources(releases), k) <==>
      exists i :: 0 <= i < |releases| && releases[i].0 == k && LastWheel(releases[i].1).Some?
    decreases |releases|
  {
    if |releases| > 0 {
      var head := ReleaseSources(releases[0].0, releases[0].1);
      HasKeyAppend(head, WheelSources(releases[1..]), k);
      WheelSourcesKeys(releases[1..], k);
      if exists i :: 0 <= i < |releases[1..]| && releases[1..][i].0 == k && LastWheel(releases[1..][i].1).Some? {
        var i :| 0 <= i < |releases[1..]| && releases[1..][i].0 == k && LastWheel(releases[1..][i].1).Some?;
        assert releases[i + 1] == releases[1..][i];
      }
      if exists i :: 0 <= i < |releases| && releases[i].0 == k && LastWheel(releases[i].1).Some? {
        var i :| 0 <= i < |releases| && releases[i].0 == k && LastWheel(releases[i].1).Some?;
        if i > 0 {
          assert releases[1..][i - 1] == releases[i];
        } else {
          assert head[0].0 == k;
        }
      }
    }
  }
}
