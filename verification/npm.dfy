/** `recipes/npmpackage`: the `package.json` an npm-publishing package
    defines in its configuration. The `.js` files found under the package's
    `bin` folder are an input, in directory-walk order.
 */
module NpmPackage {
  import opened Wrappers
  import opened Strings
  import opened Json

  /** `sanitize_version()`: every `+` becomes `-`, as npm would otherwise
      rewrite the version itself. */
  function SanitizeVersion(version: string): (r: string)
    ensures |r| == |version|
    ensures forall i :: 0 <= i < |version| ==> r[i] == if version[i] == '+' then '-' else version[i]
  {
    ReplaceCharByChar(version, '+', '-');
    Replace(version, "+", "-")
  }

  /** A sanitised version has no `+`, and sanitising it again changes nothing. */
  lemma SanitizeIdempotent(version: string)
    ensures '+' !in SanitizeVersion(version)
    ensures SanitizeVersion(SanitizeVersion(version)) == SanitizeVersion(version)
  {
    var r := SanitizeVersion(version);
    assert forall i :: 0 <= i < |r| ==> r[i] != '+';
    assert SanitizeVersion(r) == r;
  }

  /** The recipe attributes `conf_package_json` reads. */
  datatype Recipe = Recipe(name: string, version: string, author: string, description: string,
                           url: string, license: string, topics: seq<string>)

  function StringArray(ss: seq<string>): (r: Json)
    ensures r.JArray? && |r.items| == |ss|
    ensures forall i :: 0 <= i < |ss| ==> r.items[i] == JString(ss[i])
  {
    JArray(seq(|ss|, i requires 0 <= i < |ss| => JString(ss[i])))
  }

  /** `@<author>/<name>js`, both lower-cased. */
  function PackageName(recipe: Recipe): (r: string)
    ensures |r| == |recipe.author| + |recipe.name| + 4
    ensures r[0] == '@' && r[|recipe.author| + 1] == '/' && r[|r| - 2..] == "js"
    ensures r[1..|recipe.author| + 1] == Lower(recipe.author)
    ensures r[|recipe.author| + 2..|r| - 2] == Lower(recipe.name)
  {
    "@" + Lower(recipe.author) + "/" + Lower(recipe.name) + "js"
  }

  /** The default members of `package.json`, in their written order. */
  function Defaults(recipe: Recipe, entryPoint: string): (r: Dict<Json>)
    ensures |r| == 9 && DistinctKeys(r)
    ensures Get(r, "name") == Some(JString(PackageName(recipe)))
    ensures Get(r, "version") == Some(JString(SanitizeVersion(recipe.version)))
    ensures Get(r, "main") == Some(JString("bin/" + entryPoint))
  {
    var r := [
      ("name", JString(PackageName(recipe))),
      ("version", JString(SanitizeVersion(recipe.version))),
      ("description", JString("JavaScript / TypeScript bindings for " + recipe.name + ", a " + recipe.description)),
      ("main", JString("bin/" + entryPoint)),
      ("repository", JObject([("type", JString("git")), ("url", JString(recipe.url))])),
      ("author", JString(recipe.author)),
      ("license", JString(recipe.license)),
      ("keywords", StringArray(recipe.topics)),
      ("files", StringArray(["bin", "package.json"]))
    ];
    assert r[3].0 == "main" && r[1].0 == "version";
    r
  }

  /** `d |= kwargs`: each argument in turn, as `d[k] = v`. */
  function Merge(d: Dict<Json>, kwargs: Dict<Json>): Dict<Json>
    decreases |kwargs|
  {
    if |kwargs| == 0 then d else Merge(Put(d, kwargs[0].0, kwargs[0].1), kwargs[1..])
  }

  /** After the merge each argument's key reads its argument, and every
      other key reads what it read before. */
  lemma {:induction false} MergeGet(d: Dict<Json>, kwargs: Dict<Json>, k: string)
    requires DistinctKeys(kwargs)
    ensures Get(Merge(d, kwargs), k) == if HasKey(kwargs, k) then Get(kwargs, k) else Get(d, k)
    decreases |kwargs|
  {
    if |kwargs| > 0 {
      var (k0, v0) := kwargs[0];
      var rest := kwargs[1..];
      assert DistinctKeys(rest) by {
        forall i, j | 0 <= i < j < |rest|
          ensures rest[i].0 != rest[j].0
        {
          assert rest[i] == kwargs[i + 1] && rest[j] == kwargs[j + 1];
        }
      }
      MergeGet(Put(d, k0, v0), rest, k);
      GetPut(d, k0, v0, k);
      if HasKey(rest, k) {
        var j :| 0 <= j < |rest| && rest[j].0 == k;
        assert kwargs[j + 1].0 == k && k != k0;
        HasKeyOfTail(kwargs, k);
      } else if HasKey(kwargs, k) {
        var j :| 0 <= j < |kwargs| && kwargs[j].0 == k;
        if j > 0 {
          assert rest[j - 1].0 == k;
        }
      }
    }
  }

  /** The merge keeps every existing key where it was. */
  lemma {:induction false} MergeKeepsKeyOrder(d: Dict<Json>, kwargs: Dict<Json>)
    ensures |Merge(d, kwargs)| >= |d|
    ensures forall i :: 0 <= i < |d| ==> Merge(d, kwargs)[i].0 == d[i].0
    decreases |kwargs|
  {
    if |kwargs| > 0 {
      var d' := Put(d, kwargs[0].0, kwargs[0].1);
      MergeKeepsKeyOrder(d', kwargs[1..]);
      assert forall i :: 0 <= i < |d| ==> d'[i].0 == d[i].0;
    }
  }

  /** `conf_package_json()`: the configuration key and the `package.json`
      defined under it; `IndexError` when the `bin` folder has no `.js` file. */
  function ConfPackageJson(recipe: Recipe, jsFiles: seq<string>, kwargs: Dict<Json>): (r: Result<(string, Dict<Json>)>)
    ensures r.Err? <==> |jsFiles| == 0
    ensures r.Err? ==> r.error == IndexError
    ensures r.Ok? ==> r.value.0 == "user." + Lower(recipe.name) + ":package_json"
  {
    if |jsFiles| == 0 then Err(IndexError)
    else Ok(("user." + Lower(recipe.name) + ":package_json", Merge(Defaults(recipe, jsFiles[0]), kwargs)))
  }

  /** Without an overriding argument, `version` is the sanitised recipe
      version and `name` the scoped package name; an argument wins. */
  lemma PackageJsonFields(recipe: Recipe, jsFiles: seq<string>, kwargs: Dict<Json>)
    requires |jsFiles| > 0 && DistinctKeys(kwargs)
    ensures var pj := ConfPackageJson(recipe, jsFiles, kwargs).value.1;
      && Get(pj, "version") == (if HasKey(kwargs, "version") then Get(kwargs, "version")
                                else Some(JString(SanitizeVersion(recipe.version))))
      && Get(pj, "name") == (if HasKey(kwargs, "name") then Get(kwargs, "name")
                             else Some(JString(PackageName(recipe))))
      && Get(pj, "main") == (if HasKey(kwargs, "main") then Get(kwargs, "main")
                             else Some(JString("bin/" + jsFiles[0])))
  {
    var d := Defaults(recipe, jsFiles[0]);
    MergeGet(d, kwargs, "version");
    MergeGet(d, kwargs, "name");
    MergeGet(d, kwargs, "main");
  }
}
