/** `SentryLibrary`, the mixin for packages that embed Sentry: its options,
    the configuration it validates, and the decisions `send_sentry_debug_files`
    takes before running its tools. Conan's configuration is a map from
    `user.sentry:<name>` to its string value; the commands it runs are left
    out, only what they are run on is modelled.
 */
module SentryLibrary {
  import opened Wrappers
  import opened Strings
  import opened Json

  datatype Options = Options(enableSentry: bool, sendBinaries: bool, createRelease: bool, project: string)

  /** The package a recipe reports uploading the Sentry native SDK needs. */
  const SentryNative: string := "sentry-native/0.7.15"

  /** `config_options()`: an empty project name becomes the recipe's name. */
  function ConfigOptions(o: Options, name: string): (r: Options)
    ensures o.project != "" ==> r == o
    ensures o.project == "" ==> r == o.(project := name)
  {
    if o.project == "" then o.(project := name) else o
  }

  /** Configuring twice is configuring once. */
  lemma ConfigOptionsIdempotent(o: Options, name: string)
    ensures ConfigOptions(ConfigOptions(o, name), name) == ConfigOptions(o, name)
  {
  }

  /** `self.conf.get("user.sentry:<name>", "")` */
  function ConfValue(conf: Dict<string>, name: string): (r: string)
    ensures HasKey(conf, "user.sentry:" + name) ==> Some(r) == Get(conf, "user.sentry:" + name)
    ensures !HasKey(conf, "user.sentry:" + name) ==> r == ""
  {
    Get(conf, "user.sentry:" + name).GetOr("")
  }

  /** A configuration value counts as present only when it is non-empty. */
  predicate Configured(conf: Dict<string>, name: string) {
    ConfValue(conf, name) != ""
  }

  /** The configuration names `validate()` checks, in order. */
  function RequiredConfs(o: Options): (r: seq<string>)
    ensures |r| > 0 && r[0] == "url"
    ensures "organization" in r <==> o.sendBinaries
    ensures "token" in r <==> o.sendBinaries
  {
    ["url"] + (if o.sendBinaries then ["organization", "token"] else [])
  }

  function MissingConfMessage(name: string): string {
    "Unable to enable Sentry because no user.sentry:" + name + " was configured (use '-c user.sentry:" +
      name + "=" + name + "')"
  }

  /** The first name of `names` that is not configured. */
  function FirstMissing(conf: Dict<string>, names: seq<string>): (r: Option<string>)
    ensures r.None? <==> forall i :: 0 <= i < |names| ==> Configured(conf, names[i])
    ensures r.Some? ==> r.value in names && !Configured(conf, r.value)
    ensures r.Some? ==> exists i :: (0 <= i < |names| && names[i] == r.value &&
      forall j :: 0 <= j < i ==> Configured(conf, names[j]))
    decreases |names|
  {
    if |names| == 0 then None
    else if !Configured(conf, names[0]) then Some(names[0])
    else
      var r := FirstMissing(conf, names[1..]);
      if r.Some? then
        var i :| 0 <= i < |names[1..]| && names[1..][i] == r.value &&
          forall j :: 0 <= j < i ==> Configured(conf, names[1..][j]);
        assert names[i + 1] == r.value;
        assert forall j :: 0 < j < i + 1 ==> names[j] == names[1..][j - 1];
        r
      else
        assert forall j :: 0 < j < |names| ==> names[j] == names[1..][j - 1];
        r
  }

  /** `validate()`: with Sentry enabled, the first required configuration
      that is missing or empty raises `ConanInvalidConfiguration`. */
  function Validate(o: Options, conf: Dict<string>): (r: Result<()>)
    ensures !o.enableSentry ==> r.Ok?
    ensures o.enableSentry && (forall i :: 0 <= i < |RequiredConfs(o)| ==> Configured(conf, RequiredConfs(o)[i])) ==> r.Ok?
    ensures r.Err? ==> exists i :: (0 <= i < |RequiredConfs(o)| && !Configured(conf, RequiredConfs(o)[i]) &&
      (forall j :: 0 <= j < i ==> Configured(conf, RequiredConfs(o)[j])) &&
      r.error == InvalidConfiguration(MissingConfMessage(RequiredConfs(o)[i])))
  {
    if !o.enableSentry then Ok(())
    else
      match FirstMissing(conf, RequiredConfs(o))
      case Some(name) => Err(InvalidConfiguration(MissingConfMessage(name)))
      case None => Ok(())
  }

  /** Validation succeeds exactly when Sentry is off, or the url (and, when
      binaries are sent, the organization and token) are configured. */
  lemma ValidateAccepts(o: Options, conf: Dict<string>)
    ensures Validate(o, conf).Ok? <==>
      !o.enableSentry ||
      (Configured(conf, "url") && (o.sendBinaries ==> Configured(conf, "organization") && Configured(conf, "token")))
  {
    var names := RequiredConfs(o);
    if o.sendBinaries {
      assert names == ["url", "organization", "token"];
      assert (forall i :: 0 <= i < |names| ==> Configured(conf, names[i])) <==>
        Configured(conf, names[0]) && Configured(conf, names[1]) && Configured(conf, names[2]);
    } else {
      assert names == ["url"];
    }
  }

  /** A missing url is reported first, whatever else is missing. */
  lemma UrlIsCheckedFirst(o: Options, conf: Dict<string>)
    requires o.enableSentry && !Configured(conf, "url")
    ensures Validate(o, conf) == Err(InvalidConfiguration(MissingConfMessage("url")))
  {
  }

  /** `requirements()` */
  function Requirements(o: Options): (r: seq<string>)
    ensures r == [] <==> !o.enableSentry
    ensures forall i :: 0 <= i < |r| ==> r[i] == SentryNative
  {
    if o.enableSentry then [SentryNative] else []
  }

  /** `_sentry_environment()`: the configured environment, `development` by default. */
  function Environment(conf: Dict<string>): (r: string)
    ensures HasKey(conf, "user.sentry:environment") ==> Some(r) == Get(conf, "user.sentry:environment")
    ensures !HasKey(conf, "user.sentry:environment") ==> r == "development"
  {
    Get(conf, "user.sentry:environment").GetOr("development")
  }

  /** `send_sentry_debug_files()` does anything only with both switches on. */
  predicate Uploads(o: Options) {
    o.enableSentry && o.sendBinaries
  }

  /** The file uploaded: the basename for an application; for a library the
      basename with `.dylib` on macOS and `.so` elsewhere when shared (the
      default when the option is absent), `.a` when static. */
  function BinaryName(basename: string, packageType: string, shared: Option<bool>, os: string): (r: string)
    ensures packageType == "application" ==> r == basename
    ensures packageType != "application" ==>
      r == basename + "." + (if shared != Some(false) then (if os == "Macos" then "dylib" else "so") else "a")
  {
    if packageType == "application" then basename
    else
      var extension := if shared.GetOr(true) then (if os == "Macos" then "dylib" else "so") else "a";
      basename + "." + extension
  }

  /** The library file names are the basename and one of three extensions. */
  lemma LibraryExtensions(basename: string, packageType: string, shared: Option<bool>, os: string)
    requires packageType != "application"
    ensures var r := BinaryName(basename, packageType, shared, os);
      r == basename + ".so" || r == basename + ".dylib" || r == basename + ".a"
    ensures BinaryName(basename, packageType, shared, os) == basename + ".a" <==> shared == Some(false)
  {
    var r := BinaryName(basename, packageType, shared, os);
    if shared != Some(false) {
      assert |r| > |basename| + 2;
    }
  }

  /** The Sentry release name: the recipe version, followed outside
      production by `+` and the first six characters of the commit from
      `conandata.yml` (`KeyError` when it has none). */
  function ReleaseVersion(version: string, environment: string, conanData: Dict<string>): (r: Result<string>)
    ensures environment == "production" ==> r == Ok(version)
    ensures environment != "production" ==> (r.Ok? <==> HasKey(conanData, "commit"))
    ensures environment != "production" && r.Err? ==> r.error == KeyError("commit")
    ensures r.Ok? && environment != "production" ==>
      r.value == version + "+" + Take(Get(conanData, "commit").value, 6)
  {
    if environment == "production" then Ok(version)
    else
      var commit :- Index(conanData, "commit");
      Ok(version + "+" + Take(commit, 6))
  }

  /** How the binary is prepared before upload. */
  datatype Strip = Objcopy | Dsymutil | NoStrip

  /** A Sentry release and the commit it is linked to. */
  datatype Release = Release(name: string, commit: string)

  /** What `send_sentry_debug_files()` uploads: the binary, how it is
      stripped first, the `sentry-cli` credentials, and the release created. */
  datatype Upload = Upload(binary: string, strip: Strip, auth: string, release: Option<Release>)

  /** `send_sentry_debug_files()`: nothing unless both switches are on;
      otherwise `ConanException` without `sentry-cli`, else the upload. A
      release is linked to the commit of `conandata.yml`, which is read in
      every environment, so a release without one raises `KeyError`. */
  function SendDebugFiles(o: Options, conf: Dict<string>, haveSentryCli: bool, packageType: string,
                          shared: Option<bool>, os: string, basename: string, version: string,
                          conanData: Dict<string>): (r: Result<Option<Upload>>)
    ensures !Uploads(o) ==> r == Ok(None)
    ensures Uploads(o) && !haveSentryCli ==> r.Err? && r.error.ConanError?
    ensures r.Ok? && r.value.Some? ==> (Uploads(o) && haveSentryCli &&
      r.value.value.binary == BinaryName(basename, packageType, shared, os) &&
      (r.value.value.release.Some? <==> o.createRelease))
    ensures Uploads(o) && haveSentryCli ==> (r.Err? <==> o.createRelease && !HasKey(conanData, "commit"))
    ensures Uploads(o) && haveSentryCli && r.Err? ==> r.error == KeyError("commit")
    ensures r.Ok? && r.value.Some? ==>
      (r.value.value.strip == Objcopy <==> os == "Linux") && (r.value.value.strip == Dsymutil <==> os == "Macos")
    ensures r.Ok? && r.value.Some? && o.createRelease ==>
      r.value.value.release == Some(Release(ReleaseVersion(version, Environment(conf), conanData).value,
                                            Get(conanData, "commit").value))
  {
    if !Uploads(o) then Ok(None)
    else if !haveSentryCli then Err(ConanError("sentry-cli is not installed, unable to upload debug symbols"))
    else
      var binary := BinaryName(basename, packageType, shared, os);
      var strip := if os == "Linux" then Objcopy else if os == "Macos" then Dsymutil else NoStrip;
      var auth := "--auth-token " + ConfValue(conf, "token") + " -o " + ConfValue(conf, "organization") +
        " -p " + o.project;
      if o.createRelease then
        var name :- ReleaseVersion(version, Environment(conf), conanData);
        var commit :- Index(conanData, "commit");
        Ok(Some(Upload(binary, strip, auth, Some(Release(name, commit)))))
      else Ok(Some(Upload(binary, strip, auth, None)))
  }

  /** A configuration that passed validation has the credentials an upload
      needs. */
  lemma ValidatedUploadHasCredentials(o: Options, conf: Dict<string>)
    requires Validate(o, conf).Ok? && Uploads(o)
    ensures Configured(conf, "url") && Configured(conf, "organization") && Configured(conf, "token")
  {
    ValidateAccepts(o, conf);
  }

  /** Without an environment configured, a release carries the commit. */
  lemma DevelopmentReleaseCarriesCommit(version: string, conf: Dict<string>, commit: string)
    requires !HasKey(conf, "user.sentry:environment")
    ensures ReleaseVersion(version, Environment(conf), [("commit", commit)]) == Ok(version + "+" + Take(commit, 6))
  {
    assert HasKey([("commit", commit)], "commit") by {
      assert [("commit", commit)][0].0 == "commit";
    }
  }
}
