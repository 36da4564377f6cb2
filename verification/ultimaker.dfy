/** `UltimakerBase.set_version()`: the package version derived from the git
    branch, tag and commit. The git queries are inputs: the branch (`None`
    when git reports none), the commit hash and the tag (`None` when there is
    none).
 */
module UltimakerBase {
  import opened Wrappers
  import opened Strings
  import opened Versions

  /** `str(branch).replace("conan/", "")` */
  function BranchName(branch: Option<string>): string
  {
    Replace(if branch.Some? then branch.value else "None", "conan/", "")
  }

  /** A branch name without the `conan/` prefix is used unchanged. */
  lemma PlainBranchName(branch: string)
    requires !Contains(branch, "conan/")
    ensures BranchName(Some(branch)) == branch
  {
    ReplaceAbsent(branch, "conan/", "");
  }

  /** `commit[:6]` */
  function Rev(commit: string): (r: string)
    ensures |r| <= 6 && StartsWith(commit, r)
    ensures |commit| >= 6 ==> |r| == 6
  {
    Take(commit, 6)
  }

  /** How `set_version` reads the branch. */
  datatype BranchKind =
    | Master
    | Release(tag: Option<Version>, tagged: bool)   // a branch named like a version
    | Development(name: string)

  /** The branch kind. A release branch is `tagged` when the tag is set and
      non-empty, and its `tag` is the tag's version when that parses. */
  function Kind(branch: string, tag: Option<string>): (r: BranchKind)
    ensures r.Master? <==> branch == "master"
    ensures r.Release? <==> branch != "master" && Parse(branch).Some?
    ensures r.Release? ==> (r.tagged <==> tag.Some? && tag.value != "")
    ensures r.Release? && r.tagged ==> r.tag == Parse(tag.value)
    ensures r.Development? ==> r.name == branch
  {
    if branch == "master" then Master
    else if Parse(branch).Some? then
      if tag.Some? && tag.value != "" then Release(Parse(tag.value), true) else Release(None, false)
    else Development(branch)
  }

  /** The development suffix: characters 5 to 8 of the branch name when it
      contains `CURA-` anywhere (the four after the prefix only when the
      branch starts with it), else the whole branch name. */
  function DevelopmentLabel(branch: string): (r: string)
    ensures !Contains(branch, "CURA-") ==> r == branch
    ensures Contains(branch, "CURA-") ==> r == Slice(branch, 5, 9) && |r| <= 4
    ensures StartsWith(branch, "CURA-") && |branch| >= 9 ==> r == branch[5..9]
  {
    if Contains(branch, "CURA-") then Slice(branch, 5, 9) else branch
  }

  /** `set_version()` as written: on a release branch whose tag does not
      parse, the version is replaced by `-b+<rev>` rather than extended. */
  function SetVersionAsWritten(version: string, branch: Option<string>, commit: string, tag: Option<string>): (r: string)
    ensures Kind(BranchName(branch), tag).Master? ==> r == version + "-a+" + Rev(commit)
    ensures Kind(BranchName(branch), tag) == Release(None, true) ==> r == "-b+" + Rev(commit)
    ensures Kind(BranchName(branch), tag).Release? && Kind(BranchName(branch), tag).tag.Some? ==>
      r == CoreString(Kind(BranchName(branch), tag).tag.value)
    ensures Kind(BranchName(branch), tag) == Release(None, false) ==> r == version
    ensures Kind(BranchName(branch), tag).Development? ==>
      r == version + "-a+" + DevelopmentLabel(BranchName(branch)) + "." + Rev(commit)
  {
    var rev := Rev(commit);
    match Kind(BranchName(branch), tag)
    case Master => version + "-a+" + rev
    case Release(tagVersion, tagged) =>
      if !tagged then version
      else if tagVersion.Some? then CoreString(tagVersion.value)
      else "-b+" + rev
    case Development(name) => version + "-a+" + DevelopmentLabel(name) + "." + rev
  }

  /** `set_version()` as intended: a beta build appends `-b+<rev>`. Every
      result except a tagged release's extends the recipe version by a
      suffix naming the commit. */
  function SetVersion(version: string, branch: Option<string>, commit: string, tag: Option<string>): (r: string)
    ensures Kind(BranchName(branch), tag).Release? && Kind(BranchName(branch), tag).tag.Some? ==>
      r == CoreString(Kind(BranchName(branch), tag).tag.value)
    ensures Kind(BranchName(branch), tag) == Release(None, false) ==> r == version
    ensures Kind(BranchName(branch), tag).Master? ==> r == version + "-a+" + Rev(commit)
    ensures Kind(BranchName(branch), tag) == Release(None, true) ==> r == version + "-b+" + Rev(commit)
    ensures Kind(BranchName(branch), tag).Development? ==>
      r == version + "-a+" + DevelopmentLabel(BranchName(branch)) + "." + Rev(commit)
    ensures !(Kind(BranchName(branch), tag).Release? && Kind(BranchName(branch), tag).tag.Some?) ==> StartsWith(r, version)
    ensures !Kind(BranchName(branch), tag).Release? || Kind(BranchName(branch), tag) == Release(None, true) ==>
      |r| >= |version| + |Rev(commit)| + 3 && r[|r| - |Rev(commit)|..] == Rev(commit) && r[|version|] == '-'
  {
    var rev := Rev(commit);
    var r := match Kind(BranchName(branch), tag)
      case Master => version + "-a+" + rev
      case Release(tagVersion, tagged) =>
        if !tagged then version
        else if tagVersion.Some? then CoreString(tagVersion.value)
        else version + "-b+" + rev
      case Development(name) => version + "-a+" + DevelopmentLabel(name) + "." + rev;
    r
  }

  /** The two readings differ only on a release branch with a tag that does
      not parse. */
  lemma AsWrittenDiffersOnlyOnBeta(version: string, branch: Option<string>, commit: string, tag: Option<string>)
    ensures Kind(BranchName(branch), tag) != Release(None, true) ==>
      SetVersionAsWritten(version, branch, commit, tag) == SetVersion(version, branch, commit, tag)
    ensures Kind(BranchName(branch), tag) == Release(None, true) ==>
      SetVersion(version, branch, commit, tag) == version + SetVersionAsWritten(version, branch, commit, tag)
  {
  }

  /** As written, the beta version loses the recipe version: for `5.1` on the
      branch `5.1` tagged `beta` at commit `abcdef1`, the result is
      `-b+abcdef` instead of `5.1-b+abcdef`. */
  lemma AsWrittenBetaLosesVersion(version: string, branch: string, commit: string, tag: string)
    requires !Contains(branch, "conan/") && branch != "master" && Parse(branch).Some?
    requires tag != "" && Parse(tag).None?
    requires version != "" && version[0] != '-'
    ensures !StartsWith(SetVersionAsWritten(version, Some(branch), commit, Some(tag)), version)
    ensures StartsWith(SetVersion(version, Some(branch), commit, Some(tag)), version)
  {
    PlainBranchName(branch);
    assert Kind(BranchName(Some(branch)), Some(tag)) == Release(None, true);
  }

  /** On a ticket branch `CURA-<nnnn>…` the suffix carries only the ticket number. */
  lemma TicketBranchSuffix(version: string, ticket: string, rest: string, commit: string, tag: Option<string>)
    requires |ticket| == 4 && !Contains("CURA-" + ticket + rest, "conan/")
    ensures SetVersion(version, Some("CURA-" + ticket + rest), commit, tag) == version + "-a+" + ticket + "." + Rev(commit)
  {
    var branch := "CURA-" + ticket + rest;
    PlainBranchName(branch);
    assert StartsWith(branch, "CURA-");
    assert branch[5..9] == ticket;
    assert Parse(branch).None? by {
      assert branch == "CURA" + ['-'] + (ticket + rest);
      SplitAtFirst("CURA", '-', ticket + rest);
      SplitWithout("CURA", '.');
      assert !IsDigit("CURA"[0]);
    }
    assert branch != "master" by {
      assert branch[0] != "master"[0];
    }
  }

  /** Any other development branch is named in full in the suffix. */
  lemma OtherBranchSuffix(version: string, branch: string, commit: string, tag: Option<string>)
    requires !Contains(branch, "conan/") && !Contains(branch, "CURA-")
    requires branch != "master" && Parse(branch).None?
    ensures SetVersion(version, Some(branch), commit, tag) == version + "-a+" + branch + "." + Rev(commit)
    ensures SetVersionAsWritten(version, Some(branch), commit, tag) == version + "-a+" + branch + "." + Rev(commit)
  {
    PlainBranchName(branch);
  }
}
