/** The standalone extraction script: it runs `xgettext` over the Python and
    QML sources, appends plugin strings with a location line, writes one
    template per settings file, rewrites every template relative to the
    project root and merges each template into the `.po` files of the same
    name.

    The file system, the logger and the tools are outside the model: paths and
    parsed files are parameters, the logger's level is a flag, and the tools
    appear as the argument lists the script passes them.
 */
module ExtractStrings {
  import opened Wrappers
  import opened Strings
  import opened Seqs
  import opened Json
  import opened Gettext
  import Plugin
  import SettingsPot

  /** The gettext directory as the script keeps it: a separator is added to a
      non-empty directory so that tool names can be appended directly. */
  function GettextPrefix(path: string): (r: string)
    ensures StartsWith(r, path)
    ensures r == "" <==> path == ""
    ensures path != "" ==> |r| == |path| + 1 && r[|path|] == '/'
  {
    if path == "" then "" else path + "/"
  }

  /** `path.name`: the last component of a `/`-separated path. */
  function FileName(path: string): (r: string)
    ensures '/' !in r
  {
    var parts := Split(path, "/");
    SplitPartsFree(path, "/");
    assert !Contains(parts[|parts| - 1], "/");
    NoSeparatorInPart(parts[|parts| - 1]);
    parts[|parts| - 1]
  }

  /** A text that does not contain `"/"` has no `'/'`. */
  lemma NoSeparatorInPart(s: string)
    requires !Contains(s, "/")
    ensures '/' !in s
  {
    forall i | 0 <= i < |s| ensures s[i] != '/' {
      ContainsAt(s, i, "/");
      assert s[i..i + 1] == [s[i]];
    }
  }

  // ---------------------------------------------------------------------------
  // Sources

  /** The arguments of one `xgettext` run over `path` into `pot`. */
  function XgettextArgs(prefix: string, language: string, pot: string, path: string): (r: seq<string>)
    ensures |r| == 13
    ensures r[0] == prefix + "xgettext" && r[|r| - 1] == path && r[|r| - 2] == pot && r[|r| - 3] == "-o"
    ensures forall i :: 1 <= i < |r| - 3 ==> StartsWith(r[i], "-")
  {
    var r := [ prefix + "xgettext", "--from-code=UTF-8", "--join-existing", "--sort-by-file",
               "--language=" + language, "--no-wrap", "-ki18n:1", "-ki18nc:1c,2", "-ki18np:1,2", "-ki18ncp:1c,2,3",
               "-o", pot, path ];
    assert ("--language=" + language)[..1] == "-";
    r
  }

  /** `extract_python()`: one run per Python file outside a `venv` directory. */
  function ExtractPython(prefix: string, pot: string, paths: seq<string>): (r: seq<seq<string>>)
    ensures |r| == |Filter(paths, OutsideVenv)|
    ensures forall i :: 0 <= i < |r| ==> r[i] == XgettextArgs(prefix, "python", pot, Filter(paths, OutsideVenv)[i])
  {
    if |paths| == 0 then []
    else if !OutsideVenv(paths[0]) then ExtractPython(prefix, pot, paths[1..])
    else [XgettextArgs(prefix, "python", pot, paths[0])] + ExtractPython(prefix, pot, paths[1..])
  }

  /** `extract_qml()`: one run per QML file, with no directory excluded. */
  function ExtractQml(prefix: string, pot: string, paths: seq<string>): (r: seq<seq<string>>)
    ensures |r| == |paths|
    ensures forall i :: 0 <= i < |r| ==> |r[i]| == 13 && r[i][4] == "--language=javascript" && r[i][12] == paths[i]
  {
    seq(|paths|, i requires 0 <= i < |paths| => XgettextArgs(prefix, "javascript", pot, paths[i]))
  }

  /** `path.parts` for a `/`-separated path. */
  predicate OutsideVenv(path: string) {
    "venv" !in Split(path, "/")
  }

  // ---------------------------------------------------------------------------
  // Plugins and settings

  /** `create_translation_entry(filename, field, value)` */
  function PluginEntries(file: string, texts: seq<(string, string)>): string {
    if |texts| == 0 then "" else LocatedEntry(file, texts[0].0, texts[0].1) + PluginEntries(file, texts[1..])
  }

  /** `"test" not in str(path)` */
  predicate NotTest(path: string) {
    !Contains(path, "test")
  }

  /** `extract_plugin()`: each manifest outside a `test` path appends its
      entries, located by its file name, to the all-strings template. */
  function ExtractPlugin(pot: string, manifests: seq<(string, Json)>): (r: Result<string>)
    ensures manifests == [] ==> r == Ok(pot)
    ensures r.Ok? ==> StartsWith(r.value, pot)
    decreases |manifests|
  {
    if |manifests| == 0 then Ok(pot)
    else if !NotTest(manifests[0].0) then ExtractPlugin(pot, manifests[1..])
    else
      var texts :- Plugin.Texts(manifests[0].1);
      var r :- ExtractPlugin(pot + PluginEntries(FileName(manifests[0].0), texts), manifests[1..]);
      StartsWithPrefix(r, |pot + PluginEntries(FileName(manifests[0].0), texts)|, pot);
      Ok(r)
  }

  /** `extract_settings()`: every JSON file outside a `test` path goes through
      the settings script in turn; the templates it writes, in order. The
      first file that makes the script fail stops the extraction. */
  function ExtractSettings(files: seq<(string, Json)>, date: string, destination: string): (r: Result<seq<PotFile>>)
    ensures r.Ok? ==> |r.value| <= |Filter(files, SettingsCandidate)|
    ensures |files| > 0 && SettingsCandidate(files[0]) &&
            SettingsPot.WriteSettingText(FileName(files[0].0), files[0].1, date, destination).Err? ==>
      r == Err(SettingsPot.WriteSettingText(FileName(files[0].0), files[0].1, date, destination).error)
    decreases |files|
  {
    if |files| == 0 then Ok([])
    else if !SettingsCandidate(files[0]) then
      assert Filter(files, SettingsCandidate) == Filter(files[1..], SettingsCandidate);
      ExtractSettings(files[1..], date, destination)
    else
      var written :- SettingsPot.WriteSettingText(FileName(files[0].0), files[0].1, date, destination);
      var rest :- ExtractSettings(files[1..], date, destination);
      assert |Filter(files, SettingsCandidate)| == 1 + |Filter(files[1..], SettingsCandidate)|;
      Ok((if written.Some? then [written.value] else []) + rest)
  }

  /** A settings file the extraction reads: one outside a `test` path. */
  predicate SettingsCandidate(f: (string, Json)) {
    NotTest(f.0)
  }

  // ---------------------------------------------------------------------------
  // Finishing

  /** `sanitize_pot_files()`: every template is rewritten, empty or not. */
  function SanitizePotFiles(files: map<string, string>, root: string): (r: map<string, string>)
    ensures r.Keys == files.Keys
    ensures forall p :: p in files ==> r[p] == SanitizeContent(files[p], root)
    ensures forall p :: p in files && !Contains(files[p], "#: " + root + "/") && !Contains(files[p], "charset=CHARSET") ==> r[p] == files[p]
  {
    forall p | p in files && !Contains(files[p], "#: " + root + "/") && !Contains(files[p], "charset=CHARSET")
      ensures SanitizeContent(files[p], root) == files[p]
    {
      SanitizeWithoutPatterns(files[p], root);
    }
    map p | p in files :: SanitizeContent(files[p], root)
  }

  /** Each template is rewritten at every occurrence of both patterns. */
  lemma SanitizePotFilesRewritesEveryOccurrence(files: map<string, string>, root: string, p: string)
    requires p in files
    ensures SanitizePotFiles(files, root)[p] ==
      Join(Split(Join(Split(files[p], "#: " + root + "/"), "#: "), "charset=CHARSET"), "charset=UTF-8")
  {
    SanitizeRewritesEveryOccurrence(files[p], root);
  }

  /** The arguments of one `msgmerge` run updating `po` from `pot`; the run is
      quiet unless the logger is at the debug level. */
  function MsgmergeArgs(prefix: string, po: string, pot: string, debug: bool): (r: seq<string>)
    ensures |r| == if debug then 7 else 8
    ensures r[0] == prefix + "msgmerge"
    ensures r[5] == po && r[6] == pot
    ensures !debug ==> r[7] == "-q"
  {
    var args := [prefix + "msgmerge", "--no-wrap", "--no-fuzzy-matching", "--update", "--sort-by-file", po, pot];
    if debug then args else args + ["-q"]
  }

  /** `update_po_files_all_languages()`: for each template, one run per `.po`
      file of the same name found under the translations root, the head
      template's runs first. */
  function UpdatePoFiles(prefix: string, found: seq<(string, seq<string>)>, debug: bool): (r: seq<seq<string>>)
    ensures |r| == RunCount(found)
    ensures |found| > 0 ==> forall j :: 0 <= j < |found[0].1| ==> r[j] == MsgmergeArgs(prefix, found[0].1[j], found[0].0, debug)
  {
    if |found| == 0 then []
    else
      var pot := found[0].0;
      var here := seq(|found[0].1|, j requires 0 <= j < |found[0].1| => MsgmergeArgs(prefix, found[0].1[j], pot, debug));
      here + UpdatePoFiles(prefix, found[1..], debug)
  }

  /** The runs of one template: one per `.po` file, in the order found, each
      merging that template into the file. */
  lemma UpdatePoFilesOfOne(prefix: string, pot: string, pos: seq<string>, debug: bool)
    ensures var r := UpdatePoFiles(prefix, [(pot, pos)], debug);
            |r| == |pos| && forall j :: 0 <= j < |pos| ==> r[j] == MsgmergeArgs(prefix, pos[j], pot, debug)
  {
    assert [(pot, pos)][1..] == [];
  }

  /** The templates are handled in order: the runs of a list are those of its
      first part followed by those of the rest. */
  lemma {:induction false} UpdatePoFilesAppend(prefix: string, a: seq<(string, seq<string>)>, b: seq<(string, seq<string>)>, debug: bool)
    ensures UpdatePoFiles(prefix, a + b, debug) == UpdatePoFiles(prefix, a, debug) + UpdatePoFiles(prefix, b, debug)
    decreases |a|
  {
    if |a| == 0 {
      assert a + b == b;
    } else {
      assert (a + b)[0] == a[0];
      assert (a + b)[1..] == a[1..] + b;
      UpdatePoFilesAppend(prefix, a[1..], b, debug);
    }
  }

  /** The number of `msgmerge` runs for the templates in `found`. */
  function RunCount(found: seq<(string, seq<string>)>): nat {
    if |found| == 0 then 0 else |found[0].1| + RunCount(found[1..])
  }

  // ---------------------------------------------------------------------------
  // Lemmas

  /** A QML file under `venv` is scanned while a Python file at the same place
      is not. */
  lemma VenvFilteredForPythonOnly(prefix: string, pot: string)
    ensures ExtractPython(prefix, pot, ["venv/a.py"]) == []
    ensures ExtractQml(prefix, pot, ["venv/a.qml"]) == [XgettextArgs(prefix, "javascript", pot, "venv/a.qml")]
  {
    SplitAtFirst("venv", '/', "a.py");
    assert "venv/a.py" == "venv" + ['/'] + "a.py";
  }

  /** Python files under `venv` add no run; the others are run in order. */
  lemma VenvPythonSkipped(prefix: string, pot: string, paths: seq<string>, venv: seq<string>)
    requires forall i :: 0 <= i < |venv| ==> !OutsideVenv(venv[i])
    ensures ExtractPython(prefix, pot, venv + paths) == ExtractPython(prefix, pot, paths)
  {
    FilterAppend(venv, paths, OutsideVenv);
    FilterNone(venv, OutsideVenv);
  }

  /** Manifests under a `test` path add nothing. */
  lemma {:induction false} TestManifestsIgnored(pot: string, manifests: seq<(string, Json)>, tests: seq<(string, Json)>)
    requires forall i :: 0 <= i < |tests| ==> !NotTest(tests[i].0)
    ensures ExtractPlugin(pot, tests + manifests) == ExtractPlugin(pot, manifests)
    decreases |tests|
  {
    if |tests| == 0 {
      assert tests + manifests == manifests;
    } else {
      assert (tests + manifests)[0] == tests[0];
      assert (tests + manifests)[1..] == tests[1..] + manifests;
      assert ExtractPlugin(pot, tests + manifests) == ExtractPlugin(pot, tests[1..] + manifests);
      TestManifestsIgnored(pot, manifests, tests[1..]);
    }
  }

  /** Settings files under a `test` path are neither read nor written. */
  lemma {:induction false} TestSettingsIgnored(files: seq<(string, Json)>, tests: seq<(string, Json)>, date: string, destination: string)
    requires forall i :: 0 <= i < |tests| ==> !SettingsCandidate(tests[i])
    ensures ExtractSettings(tests + files, date, destination) == ExtractSettings(files, date, destination)
    decreases |tests|
  {
    if |tests| == 0 {
      assert tests + files == files;
    } else {
      assert (tests + files)[0] == tests[0];
      assert (tests + files)[1..] == tests[1..] + files;
      TestSettingsIgnored(files, tests[1..], date, destination);
    }
  }

  /** The extraction runs through the files in order: the templates of a
      list are those of its first part followed by those of the rest, and
      the first part's error, if any, is the one reported. */
  lemma {:induction false} ExtractSettingsAppend(a: seq<(string, Json)>, b: seq<(string, Json)>, date: string, destination: string)
    ensures var ra := ExtractSettings(a, date, destination);
            var rb := ExtractSettings(b, date, destination);
            ExtractSettings(a + b, date, destination) ==
              if ra.Err? then ra else if rb.Err? then rb else Ok(ra.value + rb.value)
    decreases |a|
  {
    if |a| == 0 {
      assert a + b == b;
      var rb := ExtractSettings(b, date, destination);
      if rb.Ok? {
        assert [] + rb.value == rb.value;
      }
    } else {
      assert (a + b)[0] == a[0];
      assert (a + b)[1..] == a[1..] + b;
      ExtractSettingsAppend(a[1..], b, date, destination);
      if SettingsCandidate(a[0]) {
        var w := SettingsPot.WriteSettingText(FileName(a[0].0), a[0].1, date, destination);
        var ra := ExtractSettings(a[1..], date, destination);
        var rb := ExtractSettings(b, date, destination);
        if w.Ok? && ra.Ok? && rb.Ok? {
          var head := if w.value.Some? then [w.value.value] else [];
          assert head + (ra.value + rb.value) == (head + ra.value) + rb.value;
        }
      }
    }
  }

  /** One settings file outside a `test` path gives the template the script
      writes for it, nothing when the script writes none, or its error. */
  lemma ExtractSettingsOfOne(f: (string, Json), date: string, destination: string)
    requires SettingsCandidate(f)
    ensures var w := SettingsPot.WriteSettingText(FileName(f.0), f.1, date, destination);
            ExtractSettings([f], date, destination) ==
              if w.Err? then Err(w.error) else if w.value.Some? then Ok([w.value.value]) else Ok([])
  {
    assert [f][1..] == [];
    assert ExtractSettings([], date, destination) == Ok([]);
    var w := SettingsPot.WriteSettingText(FileName(f.0), f.1, date, destination);
    if w.Ok? && w.value.Some? {
      assert [w.value.value] + [] == [w.value.value];
    }
  }

  /** The entries of one manifest located by its file name: one located entry
      per text, description first. */
  lemma PluginEntriesOfManifest(path: string, doc: Json, name: string, description: Option<string>)
    requires NotTest(path)
    requires doc.JObject? && Plugin.Valid(doc)
    requires Get(doc.members, "name") == Some(JString(name))
    requires description.Some? ==> Get(doc.members, "description") == Some(JString(description.value))
    requires description.None? ==> !HasKey(doc.members, "description")
    ensures ExtractPlugin("", [(path, doc)]) == Ok(
      (if description.Some? then LocatedEntry(FileName(path), "description", description.value) else "") +
      LocatedEntry(FileName(path), "name", name))
  {
    Plugin.TextsOfManifest(doc, name, description);
    var texts := (if description.Some? then [("description", description.value)] else []) + [("name", name)];
    var file := FileName(path);
    var ms := [(path, doc)];
    assert ms[0] == (path, doc) && ms[1..] == [];
    assert ExtractPlugin("", ms) == ExtractPlugin("" + PluginEntries(file, texts), []);
    assert "" + PluginEntries(file, texts) == PluginEntries(file, texts);
    PluginEntriesAppend(file, if description.Some? then [("description", description.value)] else [], [("name", name)]);
    PluginEntriesOne(file, ("name", name));
    if description.Some? {
      PluginEntriesOne(file, ("description", description.value));
    }
  }

  /** Manifests are handled in order: the later ones extend the template the
      earlier ones left, and the first failing manifest's error is the result. */
  lemma {:induction false} ExtractPluginAppend(pot: string, a: seq<(string, Json)>, b: seq<(string, Json)>)
    ensures ExtractPlugin(pot, a + b) ==
      (var ra := ExtractPlugin(pot, a); if ra.Err? then Err(ra.error) else ExtractPlugin(ra.value, b))
    decreases |a|
  {
    if |a| == 0 {
      assert a + b == b;
    } else {
      assert (a + b)[0] == a[0];
      assert (a + b)[1..] == a[1..] + b;
      if !NotTest(a[0].0) {
        ExtractPluginAppend(pot, a[1..], b);
      } else {
        var texts := Plugin.Texts(a[0].1);
        if texts.Ok? {
          ExtractPluginAppend(pot + PluginEntries(FileName(a[0].0), texts.value), a[1..], b);
        }
      }
    }
  }

  lemma PluginEntriesOne(file: string, t: (string, string))
    ensures PluginEntries(file, [t]) == LocatedEntry(file, t.0, t.1)
  {
    assert [t][1..] == [];
    assert LocatedEntry(file, t.0, t.1) + "" == LocatedEntry(file, t.0, t.1);
  }

  lemma {:induction false} PluginEntriesAppend(file: string, a: seq<(string, string)>, b: seq<(string, string)>)
    ensures PluginEntries(file, a + b) == PluginEntries(file, a) + PluginEntries(file, b)
  {
    if |a| == 0 {
      assert a + b == b;
    } else {
      assert (a + b)[0] == a[0];
      assert (a + b)[1..] == a[1..] + b;
      PluginEntriesAppend(file, a[1..], b);
    }
  }

  /** The quiet flag is the only difference the logger's level makes. */
  lemma MsgmergeQuietUnlessDebug(prefix: string, po: string, pot: string)
    ensures MsgmergeArgs(prefix, po, pot, false) == MsgmergeArgs(prefix, po, pot, true) + ["-q"]
  {
  }
}
