/** The translation extractor that recipes call from their `generate` step.

    It extracts every translatable string of a project into templates under
    `resources/i18n`, removes templates without any entry, rewrites the rest,
    puts back the previous content of every template whose entries did not
    change, and, when one did change, refreshes every language's `.po` file.

    Files, the clock and the gettext tools are outside the model: the file
    system is a map from path to content, the date is a parameter, and the
    tools appear as the command lines the extractor runs.
 */
module ExtractTranslations {
  import opened Wrappers
  import opened Strings
  import opened Seqs
  import opened Lines
  import opened Json
  import opened Gettext
  import opened SettingsTree
  import Plugin

  // ---------------------------------------------------------------------------
  // Templates for settings files

  /** The number of lines `_create_pot_header` writes. */
  const HeaderLineCount: nat := 18

  /** `_create_pot_header()`: a comment line, the header fields and six blank lines. */
  function Header(date: string): string {
    Unlines(["#"] + HeaderFields(date) + ["", "", "", "", "", ""])
  }

  /** `_write_setting_text(json_path, destination_path)` for a file named
      `fileName` whose parsed content is `doc`: a file inheriting from another
      is skipped; otherwise its `settings` member, or the whole document when
      it has none, is written out, even when it holds no string. */
  function WriteSettingText(fileName: string, doc: Json, date: string, destination: string): (r: Result<Option<PotFile>>)
    ensures doc.JScalar? ==> r == Err(TypeError)
    ensures r == Ok(None) <==> Has(doc, "inherits")
    ensures r.Ok? && r.value.Some? ==>
      r.value.value.path == destination + "/" + fileName + ".pot" &&
      StartsWith(r.value.value.content, Header(date))
  {
    if doc.JScalar? then Err(TypeError)
    else if Has(doc, "inherits") then Ok(None)
    else
      var settings :- if Has(doc, "settings") then Member(doc, "settings") else Ok(doc);
      var entries :- ProcessSettings(Unlocated, fileName, settings);
      var content := Header(date) + entries;
      assert content[..|Header(date)|] == Header(date);
      Ok(Some(PotFile(destination + "/" + fileName + ".pot", content)))
  }

  /** `setting_dict["settings"]` when present, else `setting_dict` itself. */
  function SettingsToWrite(doc: Json): Json
    requires doc.JObject?
  {
    if HasKey(doc.members, "settings") then Get(doc.members, "settings").value else doc
  }

  // ---------------------------------------------------------------------------
  // Plugin manifests

  /** `_create_translation_entry(path, field, value)`: an entry opened by a blank line. */
  function PluginEntries(texts: seq<(string, string)>): string {
    if |texts| == 0 then "" else OpenedEntry(texts[0].0, texts[0].1) + PluginEntries(texts[1..])
  }

  /** `_extract_plugin()`: the entries of every manifest whose path does not
      contain `test` are appended to the all-strings template, manifest by
      manifest. */
  function ExtractPlugin(pot: string, manifests: seq<(string, Json)>): (r: Result<string>)
    ensures manifests == [] ==> r == Ok(pot)
    ensures r.Ok? ==> StartsWith(r.value, pot)
    decreases |manifests|
  {
    if |manifests| == 0 then Ok(pot)
    else if Contains(manifests[0].0, "test") then ExtractPlugin(pot, manifests[1..])
    else
      var texts :- Plugin.Texts(manifests[0].1);
      var r :- ExtractPlugin(pot + PluginEntries(texts), manifests[1..]);
      StartsWithPrefix(r, |pot + PluginEntries(texts)|, pot);
      Ok(r)
  }

  // ---------------------------------------------------------------------------
  // Source files

  /** `path.parts` for a relative path written with `/`. */
  function Parts(path: string): seq<string> {
    Split(path, "/")
  }

  /** Files under a `venv` directory are not scanned. */
  predicate OutsideVenv(path: string) {
    "venv" !in Parts(path)
  }

  /** The arguments of one `xgettext` run over `path` into `pot`. */
  function XgettextArgs(bindir: string, language: string, pot: string, path: string): seq<string> {
    [ bindir + "/xgettext", "--from-code=UTF-8", "--join-existing", "--add-location=never", "--sort-output",
      "--language=" + language, "--no-wrap", "-ki18n:1", "-ki18nc:1c,2", "-ki18np:1,2", "-ki18ncp:1c,2,3",
      "-o", pot, path ]
  }

  /** The command line of one `xgettext` run. */
  function XgettextCommand(bindir: string, language: string, pot: string, path: string): string {
    Join(XgettextArgs(bindir, language, pot, path), " ")
  }

  /** `_extract_python()` and `_extract_qml()`: one `xgettext` run per source
      file, in the order the files are found, skipping files under `venv`. The
      commands are those of the files that pass the filter, in order. */
  function ExtractSources(bindir: string, language: string, pot: string, paths: seq<string>): (r: seq<string>)
    ensures |r| == |Filter(paths, OutsideVenv)|
    ensures forall i :: 0 <= i < |r| ==> r[i] == XgettextCommand(bindir, language, pot, Filter(paths, OutsideVenv)[i])
  {
    if |paths| == 0 then []
    else if !OutsideVenv(paths[0]) then ExtractSources(bindir, language, pot, paths[1..])
    else [XgettextCommand(bindir, language, pot, paths[0])] + ExtractSources(bindir, language, pot, paths[1..])
  }

  // ---------------------------------------------------------------------------
  // Comparing templates

  /** `"".join(content.splitlines(keepends=True)[n:])` */
  function DropLines(content: string, n: nat): string {
    var ls := SplitLines(content);
    Concat(if n < |ls| then ls[n..] else [])
  }

  /** What remains after dropping `n` lines is the text after those lines,
      kept verbatim, and it is empty exactly when the text has at most `n`. */
  lemma DropLinesKeepsRest(content: string, n: nat)
    ensures DropLines(content, n) == "" <==> |SplitLines(content)| <= n
    ensures n <= |SplitLines(content)| ==> Concat(SplitLines(content)[..n]) + DropLines(content, n) == content
  {
    var ls := SplitLines(content);
    if n < |ls| {
      DropSomeLines(ls, n);
      ConcatSplitLines(content);
    } else if n == |ls| {
      assert ls[..n] == ls;
      ConcatSplitLines(content);
    }
  }

  /** Dropping fewer lines than there are keeps a non-empty rest. */
  lemma DropSomeLines(ls: seq<string>, n: nat)
    requires n < |ls| && forall i :: 0 <= i < |ls| ==> |ls[i]| > 0
    ensures Concat(ls[..n]) + Concat(ls[n..]) == Concat(ls)
    ensures Concat(ls[n..]) != ""
  {
    assert ls == ls[..n] + ls[n..];
    ConcatAppend(ls[..n], ls[n..]);
    ConcatNonEmpty(ls[n..]);
  }

  /** `_remove_pot_header(content)` as written: it drops 20 lines. */
  function RemovePotHeaderAsWritten(content: string): string {
    DropLines(content, 20)
  }

  /** `_remove_pot_header(content)` dropping the lines the header has. */
  function RemovePotHeader(content: string): string {
    DropLines(content, HeaderLineCount)
  }

  predicate NotComment(line: string) {
    !StartsWith(line, "#")
  }

  /** `_remove_comments(content)`: the lines not starting with `#`. */
  function RemoveComments(content: string): string {
    Concat(Filter(SplitLines(content), NotComment))
  }

  /** Keeping some of a well-split list of lines keeps it well split. */
  lemma {:induction false} FilterWellSplit(ls: seq<string>, p: string -> bool)
    requires WellSplit(ls)
    ensures WellSplit(Filter(ls, p))
  {
    if |ls| > 0 {
      FilterWellSplit(ls[1..], p);
      var rest := Filter(ls[1..], p);
      if p(ls[0]) && |rest| > 0 {
        assert |ls| > 1;
        var r := [ls[0]] + rest;
        forall i | 0 <= i < |r| ensures IsLine(r[i]) && (i < |r| - 1 ==> |r[i]| > 0 && Terminated(r[i])) {
          if i > 0 {
            assert r[i] == rest[i - 1];
          }
        }
      }
    }
  }

  /** On text without `\r`, the comment-free text is made of exactly the lines
      not starting with `#`, in order. */
  lemma RemoveCommentsKeepsOtherLines(content: string)
    requires '\r' !in content
    ensures SplitLines(RemoveComments(content)) == Filter(SplitLines(content), NotComment)
  {
    SplitLinesWellSplit(content);
    FilterWellSplit(SplitLines(content), NotComment);
    SplitLinesConcat(Filter(SplitLines(content), NotComment));
  }

  /** Removing comments twice is removing them once. */
  lemma RemoveCommentsIdempotent(content: string)
    requires '\r' !in content
    ensures RemoveComments(RemoveComments(content)) == RemoveComments(content)
  {
    RemoveCommentsKeepsOtherLines(content);
    FilterIdempotent(SplitLines(content), NotComment);
  }

  /** `_is_pot_content_changed(pot_file)` as written, for a template whose
      current content is `current`; `saved` holds the contents loaded before
      extraction. */
  predicate IsPotContentChangedAsWritten(saved: map<string, string>, path: string, current: string) {
    path in saved &&
    RemoveComments(RemovePotHeaderAsWritten(saved[path])) != RemoveComments(RemovePotHeaderAsWritten(current))
  }

  /** `_is_pot_content_changed(pot_file)`, with the header removed exactly. */
  predicate IsPotContentChanged(saved: map<string, string>, path: string, current: string) {
    path in saved &&
    RemoveComments(RemovePotHeader(saved[path])) != RemoveComments(RemovePotHeader(current))
  }

  /** What a template holds once changes have been checked as written: its
      previous content when it was loaded before and did not change, else its
      new one. */
  function KeptContentAsWritten(saved: map<string, string>, path: string, current: string): string {
    if path in saved && !IsPotContentChangedAsWritten(saved, path, current) then saved[path] else current
  }

  /** What a template holds once changes have been checked with the header
      removed exactly. */
  function KeptContent(saved: map<string, string>, path: string, current: string): string {
    if path in saved && !IsPotContentChanged(saved, path, current) then saved[path] else current
  }

  /** `_only_update_pot_files_when_changed()` over the templates `potFiles`
      (each template once, in the order they are found): restores unchanged
      templates and reports whether any changed, comparing the templates
      after 20 lines as the recipe does. */
  method OnlyUpdatePotFilesWhenChanged(potFiles: seq<string>, saved: map<string, string>, disk: map<string, string>)
    returns (files: map<string, string>, updated: bool)
    requires forall p :: p in disk <==> p in potFiles
    requires forall i, j :: 0 <= i < j < |potFiles| ==> potFiles[i] != potFiles[j]
    ensures files.Keys == disk.Keys
    ensures forall p :: p in disk ==> files[p] == KeptContentAsWritten(saved, p, disk[p])
    ensures updated <==> exists p :: p in disk && IsPotContentChangedAsWritten(saved, p, disk[p])
  {
    files := disk;
    updated := false;
    ghost var done: set<string> := {};
    var k := 0;
    while k < |potFiles|
      invariant 0 <= k <= |potFiles|
      invariant files.Keys == disk.Keys
      invariant done <= disk.Keys
      invariant forall i :: 0 <= i < k ==> potFiles[i] in done
      invariant forall i :: k <= i < |potFiles| ==> potFiles[i] !in done
      invariant forall p :: p in disk ==> files[p] == if p in done then KeptContentAsWritten(saved, p, disk[p]) else disk[p]
      invariant updated <==> exists p :: p in done && IsPotContentChangedAsWritten(saved, p, disk[p])
    {
      var p := potFiles[k];
      if IsPotContentChangedAsWritten(saved, p, files[p]) {
        updated := true;
      } else if p in saved {
        files := files[p := saved[p]];
      }
      done := done + {p};
      k := k + 1;
    }
    assert done == disk.Keys;
  }

  /** The same pass with the 18-line header removed exactly, as the recipe
      evidently intends. */
  method OnlyUpdatePotFilesWhenChangedIntended(potFiles: seq<string>, saved: map<string, string>, disk: map<string, string>)
    returns (files: map<string, string>, updated: bool)
    requires forall p :: p in disk <==> p in potFiles
    requires forall i, j :: 0 <= i < j < |potFiles| ==> potFiles[i] != potFiles[j]
    ensures files.Keys == disk.Keys
    ensures forall p :: p in disk ==> files[p] == KeptContent(saved, p, disk[p])
    ensures updated <==> exists p :: p in disk && IsPotContentChanged(saved, p, disk[p])
  {
    files := disk;
    updated := false;
    ghost var done: set<string> := {};
    var k := 0;
    while k < |potFiles|
      invariant 0 <= k <= |potFiles|
      invariant files.Keys == disk.Keys
      invariant done <= disk.Keys
      invariant forall i :: 0 <= i < k ==> potFiles[i] in done
      invariant forall i :: k <= i < |potFiles| ==> potFiles[i] !in done
      invariant forall p :: p in disk ==> files[p] == if p in done then KeptContent(saved, p, disk[p]) else disk[p]
      invariant updated <==> exists p :: p in done && IsPotContentChanged(saved, p, disk[p])
    {
      var p := potFiles[k];
      if IsPotContentChanged(saved, p, files[p]) {
        updated := true;
      } else if p in saved {
        files := files[p := saved[p]];
      }
      done := done + {p};
      k := k + 1;
    }
    assert done == disk.Keys;
  }

  // ---------------------------------------------------------------------------
  // Finishing templates

  /** `_sanitize_pot_files()`: templates without any `msgctxt` are removed, the
      others rewritten relative to the project root. */
  method SanitizePotFiles(potFiles: seq<string>, disk: map<string, string>, root: string)
    returns (files: map<string, string>)
    requires forall p :: p in disk <==> p in potFiles
    requires forall i, j :: 0 <= i < j < |potFiles| ==> potFiles[i] != potFiles[j]
    ensures forall p :: p in files <==> p in disk && Contains(disk[p], "msgctxt")
    ensures forall p :: p in files ==> files[p] == SanitizeContent(disk[p], root)
  {
    files := disk;
    var k := 0;
    while k < |potFiles|
      invariant 0 <= k <= |potFiles|
      invariant forall i :: 0 <= i < k ==>
        (potFiles[i] in files <==> Contains(disk[potFiles[i]], "msgctxt")) &&
        (potFiles[i] in files ==> files[potFiles[i]] == SanitizeContent(disk[potFiles[i]], root))
      invariant forall i :: k <= i < |potFiles| ==> potFiles[i] in files && files[potFiles[i]] == disk[potFiles[i]]
      invariant forall p :: p in files ==> p in disk
    {
      var p := potFiles[k];
      if !Contains(files[p], "msgctxt") {
        files := files - {p};
      } else {
        files := files[p := SanitizeContent(files[p], root)];
      }
      k := k + 1;
    }
    forall p | p in disk ensures p in files <==> Contains(disk[p], "msgctxt") {
      var i :| 0 <= i < |potFiles| && potFiles[i] == p;
    }
    forall p | p in files ensures files[p] == SanitizeContent(disk[p], root) {
      var i :| 0 <= i < |potFiles| && potFiles[i] == p;
    }
  }

  // ---------------------------------------------------------------------------
  // Updating translations

  /** A template found under the translations root: its path and its name
      without the `.pot` suffix. */
  datatype Template = Template(path: string, stem: string)

  /** `lang_folder / pot_file.with_suffix('.po').name` */
  function PoPath(language: string, pot: Template): string {
    language + "/" + pot.stem + ".po"
  }

  function MsginitCommand(bindir: string, pot: Template, po: string): string {
    bindir + "/msginit --no-translator -i " + pot.path + " -o " + po + " --locale=en"
  }

  function MsgmergeCommand(bindir: string, pot: Template, po: string): string {
    bindir + "/msgmerge --add-location=never --no-wrap --no-fuzzy-matching --sort-output -o " + po + " " + po + " " + pot.path
  }

  /** Every (template, language folder) pair, templates outermost. */
  function Pairs(pots: seq<Template>, languages: seq<string>): (r: seq<(Template, string)>)
    ensures |r| == |pots| * |languages|
    ensures forall k :: 0 <= k < |r| ==> r[k].0 in pots && r[k].1 in languages
    ensures forall p, l :: p in pots && l in languages ==> (p, l) in r
  {
    if |pots| == 0 then []
    else
      var here := seq(|languages|, j requires 0 <= j < |languages| => (pots[0], languages[j]));
      var rest := Pairs(pots[1..], languages);
      assert |pots| * |languages| == |languages| + (|pots| - 1) * |languages|;
      forall l | l in languages ensures (pots[0], l) in here {
        var j :| 0 <= j < |languages| && languages[j] == l;
        assert here[j] == (pots[0], l);
      }
      assert forall p :: p in pots && p != pots[0] ==> p in pots[1..];
      here + rest
  }

  /** The `.po` files of `pairs` that do not exist yet when their turn comes. */
  function NewPoFiles(pairs: seq<(Template, string)>, existing: set<string>): set<string> {
    set i | 0 <= i < |pairs| && PoPath(pairs[i].1, pairs[i].0) !in existing :: PoPath(pairs[i].1, pairs[i].0)
  }

  /** The `.po` files of `pairs`. */
  function PoFiles(pairs: seq<(Template, string)>): set<string> {
    set i | 0 <= i < |pairs| :: PoPath(pairs[i].1, pairs[i].0)
  }

  /** The commands for one (template, language folder) pair when the `.po`
      files in `existing` are on disk: `msginit` first when its `.po` file is
      missing, then `msgmerge`. */
  function PairCommands(bindir: string, pair: (Template, string), existing: set<string>): (r: seq<string>)
    ensures PoPath(pair.1, pair.0) in existing ==> r == [MsgmergeCommand(bindir, pair.0, PoPath(pair.1, pair.0))]
    ensures PoPath(pair.1, pair.0) !in existing ==>
      r == [MsginitCommand(bindir, pair.0, PoPath(pair.1, pair.0)), MsgmergeCommand(bindir, pair.0, PoPath(pair.1, pair.0))]
  {
    var po := PoPath(pair.1, pair.0);
    (if po in existing then [] else [MsginitCommand(bindir, pair.0, po)]) + [MsgmergeCommand(bindir, pair.0, po)]
  }

  /** `_update_po_files_all_languages()` over `pairs`: a missing `.po` file is
      created and initialised with `msginit` before its first merge, and every
      pair is merged with `msgmerge`. */
  function UpdateCommands(bindir: string, pairs: seq<(Template, string)>, existing: set<string>): (r: seq<string>)
    ensures forall i :: 0 <= i < |pairs| ==> MsgmergeCommand(bindir, pairs[i].0, PoPath(pairs[i].1, pairs[i].0)) in r
  {
    if |pairs| == 0 then []
    else
      var po := PoPath(pairs[0].1, pairs[0].0);
      var rest := UpdateCommands(bindir, pairs[1..], existing + {po});
      var r := PairCommands(bindir, pairs[0], existing) + rest;
      forall i | 1 <= i < |pairs| ensures MsgmergeCommand(bindir, pairs[i].0, PoPath(pairs[i].1, pairs[i].0)) in r {
        assert pairs[i] == pairs[1..][i - 1];
      }
      r
  }

  /** The commands for consecutive runs of pairs follow each other, the second
      run seeing the `.po` files the first one created. */
  lemma {:induction false} UpdateCommandsAppend(bindir: string, pairs: seq<(Template, string)>, more: seq<(Template, string)>, existing: set<string>)
    ensures UpdateCommands(bindir, pairs + more, existing) ==
      UpdateCommands(bindir, pairs, existing) + UpdateCommands(bindir, more, existing + PoFiles(pairs))
  {
    if |pairs| == 0 {
      assert pairs + more == more;
      assert existing + PoFiles(pairs) == existing;
    } else {
      var po := PoPath(pairs[0].1, pairs[0].0);
      var head := PairCommands(bindir, pairs[0], existing);
      var seen := existing + {po};
      calc {
        UpdateCommands(bindir, pairs + more, existing);
        { assert (pairs + more)[0] == pairs[0];
          assert (pairs + more)[1..] == pairs[1..] + more; }
        head + UpdateCommands(bindir, pairs[1..] + more, seen);
        { UpdateCommandsAppend(bindir, pairs[1..], more, seen); }
        head + (UpdateCommands(bindir, pairs[1..], seen) + UpdateCommands(bindir, more, seen + PoFiles(pairs[1..])));
        { PoFilesCons(pairs);
          assert seen + PoFiles(pairs[1..]) == existing + PoFiles(pairs); }
        head + (UpdateCommands(bindir, pairs[1..], seen) + UpdateCommands(bindir, more, existing + PoFiles(pairs)));
        (head + UpdateCommands(bindir, pairs[1..], seen)) + UpdateCommands(bindir, more, existing + PoFiles(pairs));
        UpdateCommands(bindir, pairs, existing) + UpdateCommands(bindir, more, existing + PoFiles(pairs));
      }
    }
  }

  lemma PoFilesCons(pairs: seq<(Template, string)>)
    requires |pairs| > 0
    ensures PoFiles(pairs) == {PoPath(pairs[0].1, pairs[0].0)} + PoFiles(pairs[1..])
  {
    forall x | x in PoFiles(pairs) ensures x == PoPath(pairs[0].1, pairs[0].0) || x in PoFiles(pairs[1..]) {
      var i :| 0 <= i < |pairs| && x == PoPath(pairs[i].1, pairs[i].0);
      if i > 0 {
        assert pairs[1..][i - 1] == pairs[i];
      }
    }
    forall x | x in PoFiles(pairs[1..]) ensures x in PoFiles(pairs) {
      var i :| 0 <= i < |pairs[1..]| && x == PoPath(pairs[1..][i].1, pairs[1..][i].0);
      assert pairs[1..][i] == pairs[i + 1];
    }
  }

  /** The loop's order: after the commands of the first `i` pairs come those
      of pair `i`, `msginit` included exactly when neither the disk nor an
      earlier pair had its `.po` file. */
  lemma UpdateCommandsInPairOrder(bindir: string, pairs: seq<(Template, string)>, existing: set<string>, i: nat)
    requires i < |pairs|
    ensures UpdateCommands(bindir, pairs[..i + 1], existing) ==
      UpdateCommands(bindir, pairs[..i], existing) + PairCommands(bindir, pairs[i], existing + PoFiles(pairs[..i]))
  {
    assert pairs[..i + 1] == pairs[..i] + [pairs[i]];
    UpdateCommandsAppend(bindir, pairs[..i], [pairs[i]], existing);
    assert UpdateCommands(bindir, [pairs[i]], existing + PoFiles(pairs[..i])) ==
      PairCommands(bindir, pairs[i], existing + PoFiles(pairs[..i])) + UpdateCommands(bindir, [], existing + PoFiles(pairs[..i]) + {PoPath(pairs[i].1, pairs[i].0)});
  }

  /** The last step of `generate()`: the `.po` files are touched only when a
      template changed, and then every template is merged into every language. */
  function PoUpdates(updated: bool, bindir: string, pots: seq<Template>, languages: seq<string>, existing: set<string>): (r: seq<string>)
    ensures !updated ==> r == []
    ensures updated ==> forall t, l :: t in pots && l in languages ==> MsgmergeCommand(bindir, t, PoPath(l, t)) in r
  {
    if updated then
      MergesEveryPair(bindir, pots, languages, existing);
      UpdateCommands(bindir, Pairs(pots, languages), existing)
    else []
  }

  lemma MergesEveryPair(bindir: string, pots: seq<Template>, languages: seq<string>, existing: set<string>)
    ensures forall t, l :: t in pots && l in languages ==>
      MsgmergeCommand(bindir, t, PoPath(l, t)) in UpdateCommands(bindir, Pairs(pots, languages), existing)
  {
    var pairs := Pairs(pots, languages);
    forall t, l | t in pots && l in languages
      ensures MsgmergeCommand(bindir, t, PoPath(l, t)) in UpdateCommands(bindir, pairs, existing)
    {
      var i :| 0 <= i < |pairs| && pairs[i] == (t, l);
    }
  }

  /** One `msgmerge` per pair and one `msginit` per `.po` file created. */
  lemma {:induction false} UpdateCommandsCount(bindir: string, pairs: seq<(Template, string)>, existing: set<string>)
    ensures |UpdateCommands(bindir, pairs, existing)| == |pairs| + |NewPoFiles(pairs, existing)|
  {
    if |pairs| > 0 {
      var po := PoPath(pairs[0].1, pairs[0].0);
      UpdateCommandsCount(bindir, pairs[1..], existing + {po});
      NewPoFilesStep(pairs, existing);
    }
  }

  lemma NewPoFilesStep(pairs: seq<(Template, string)>, existing: set<string>)
    requires |pairs| > 0
    ensures var po := PoPath(pairs[0].1, pairs[0].0);
      |NewPoFiles(pairs, existing)| ==
        (if po in existing then 0 else 1) + |NewPoFiles(pairs[1..], existing + {po})|
  {
    var po := PoPath(pairs[0].1, pairs[0].0);
    var whole := NewPoFiles(pairs, existing);
    var rest := NewPoFiles(pairs[1..], existing + {po});
    assert forall i :: 1 <= i < |pairs| ==> pairs[i] == pairs[1..][i - 1];
    if po in existing {
      assert whole == rest;
    } else {
      assert whole == {po} + rest;
      assert po !in rest;
    }
  }

  // ---------------------------------------------------------------------------
  // Lemmas

  /** The header is 18 lines. */
  lemma HeaderLines(date: string)
    requires NoLineBreak(date)
    ensures SplitLines(Header(date)) == WithNewlines(["#"] + HeaderFields(date) + ["", "", "", "", "", ""])
    ensures |SplitLines(Header(date))| == HeaderLineCount
    ensures Terminated(Header(date))
  {
    var ls := ["#"] + HeaderFields(date) + ["", "", "", "", "", ""];
    HeaderFieldsAreLines(date);
    assert AllNoLineBreak(ls) by {
      forall i | 0 <= i < |ls| ensures NoLineBreak(ls[i]) {
        if 1 <= i < 12 {
          assert ls[i] == HeaderFields(date)[i - 1];
        }
      }
    }
    SplitLinesUnlines(ls);
  }

  /** Dropping lines past a terminated prefix drops the rest from what follows it. */
  lemma DropLinesOfAppend(h: string, t: string, n: nat)
    requires Terminated(h) && |SplitLines(h)| <= n
    ensures DropLines(h + t, n) == DropLines(t, n - |SplitLines(h)|)
  {
    SplitLinesAppend(h, t);
    var hs, ts := SplitLines(h), SplitLines(t);
    var k := n - |hs|;
    var rest: seq<string> := if k < |ts| then ts[k..] else [];
    assert (if n < |hs + ts| then (hs + ts)[n..] else []) == rest by {
      if n < |hs + ts| {
        assert (hs + ts)[n..] == ts[k..];
      }
    }
    calc {
      DropLines(h + t, n);
      Concat(if n < |hs + ts| then (hs + ts)[n..] else []);
      Concat(rest);
      DropLines(t, k);
    }
  }

  /** Dropping no line changes nothing. */
  lemma DropNoLines(t: string)
    ensures DropLines(t, 0) == t
  {
    ConcatSplitLines(t);
    assert SplitLines(t)[0..] == SplitLines(t);
  }

  /** Removing the header of a written template leaves exactly its entries. */
  lemma RemovePotHeaderLeavesEntries(date: string, entries: string)
    requires NoLineBreak(date)
    ensures RemovePotHeader(Header(date) + entries) == entries
  {
    HeaderLines(date);
    DropLinesOfAppend(Header(date), entries, HeaderLineCount);
    DropNoLines(entries);
  }

  /** A field whose context and text keep to one line each once escaped. */
  predicate OneLineField(f: Field) {
    NoLineBreak(f.setting) && NoLineBreak(f.field) &&
    forall i :: 0 <= i < |f.text| && f.text[i] != '\n' ==> !IsLineBreak(f.text[i])
  }

  /** The lines of one entry as `_create_setting_translation_entry` writes it. */
  lemma UnlocatedEntryLines(f: Field)
    requires OneLineField(f)
    ensures SplitLines(Render(Unlocated, "", f)) ==
      WithNewlines([ContextLine(Context(f)), MsgidLine(f.text), "msgstr \"\"", ""])
    ensures Terminated(Render(Unlocated, "", f))
  {
    NoLineBreakOfPieces(f.setting, " ", f.field);
    NoLineBreakOfPieces("msgctxt \"", Context(f), "\"");
    EscapeHasNoLineBreak(f.text);
    NoLineBreakOfPieces("msgid \"", Escape(f.text), "\"");
    SplitLinesUnlines([ContextLine(Context(f)), MsgidLine(f.text), "msgstr \"\"", ""]);
  }

  /** No line of one entry is a comment. */
  lemma UnlocatedEntryHasNoComments(file: string, f: Field)
    requires OneLineField(f)
    ensures Filter(SplitLines(Render(Unlocated, file, f)), NotComment) == SplitLines(Render(Unlocated, file, f))
    ensures Terminated(Render(Unlocated, file, f))
  {
    UnlocatedEntryLines(f);
    var el := SplitLines(Render(Unlocated, "", f));
    assert el[0][0] == 'm' && el[1][0] == 'm' && el[2][0] == 'm' && el[3][0] == '\n';
    assert forall i :: 0 <= i < |el| ==> NotComment(el[i]);
    FilterAll(el, NotComment);
  }

  /** No line of the entries `_process_settings` writes is a comment. */
  lemma {:induction false} EntriesHaveNoComments(file: string, fs: seq<Field>)
    requires forall i :: 0 <= i < |fs| ==> OneLineField(fs[i])
    ensures Filter(SplitLines(RenderAll(Unlocated, file, fs)), NotComment) == SplitLines(RenderAll(Unlocated, file, fs))
    ensures Terminated(RenderAll(Unlocated, file, fs))
  {
    if |fs| > 0 {
      var e := Render(Unlocated, file, fs[0]);
      var rest := RenderAll(Unlocated, file, fs[1..]);
      UnlocatedEntryHasNoComments(file, fs[0]);
      EntriesHaveNoComments(file, fs[1..]);
      SplitLinesAppend(e, rest);
      TerminatedAppend(e, rest);
      FilterAppend(SplitLines(e), SplitLines(rest), NotComment);
    }
  }

  /** What the comparison sees of a template the extractor wrote. */
  lemma ComparedTextOfTemplate(date: string, file: string, fs: seq<Field>)
    requires NoLineBreak(date)
    requires forall i :: 0 <= i < |fs| ==> OneLineField(fs[i])
    ensures RemoveComments(RemovePotHeader(Header(date) + RenderAll(Unlocated, file, fs))) == RenderAll(Unlocated, file, fs)
  {
    RemovePotHeaderLeavesEntries(date, RenderAll(Unlocated, file, fs));
    EntriesHaveNoComments(file, fs);
    ConcatSplitLines(RenderAll(Unlocated, file, fs));
  }

  /** With the header removed exactly, a settings template counts as changed
      exactly when its entries changed, whatever the two creation dates. */
  lemma ChangedExactlyWhenEntriesDiffer(path: string, d1: string, d2: string, file: string, fs1: seq<Field>, fs2: seq<Field>)
    requires NoLineBreak(d1) && NoLineBreak(d2)
    requires forall i :: 0 <= i < |fs1| ==> OneLineField(fs1[i])
    requires forall i :: 0 <= i < |fs2| ==> OneLineField(fs2[i])
    ensures IsPotContentChanged(map[path := Header(d1) + RenderAll(Unlocated, file, fs1)], path,
                                Header(d2) + RenderAll(Unlocated, file, fs2))
            <==> RenderAll(Unlocated, file, fs1) != RenderAll(Unlocated, file, fs2)
  {
    ComparedTextOfTemplate(d1, file, fs1);
    ComparedTextOfTemplate(d2, file, fs2);
  }

  /** The last two lines of an entry are its `msgstr` and a blank line. */
  lemma EntryTail(f: Field)
    requires OneLineField(f)
    ensures |SplitLines(Render(Unlocated, "", f))| == 4
    ensures Concat(SplitLines(Render(Unlocated, "", f))[2..]) == Unlines(["msgstr \"\"", ""])
  {
    var ls := [ContextLine(Context(f)), MsgidLine(f.text), "msgstr \"\"", ""];
    UnlocatedEntryLines(f);
    assert WithNewlines(ls)[2..] == WithNewlines(ls[2..]);
    assert ls[2..] == ["msgstr \"\"", ""];
    ConcatWithNewlines(ls[2..]);
  }

  /** Dropping two lines of a terminated four-line text and what follows it. */
  lemma DropTwoOfFour(e: string, rest: string)
    requires Terminated(e) && |SplitLines(e)| == 4
    ensures DropLines(e + rest, 2) == Concat(SplitLines(e)[2..]) + rest
  {
    SplitLinesAppend(e, rest);
    var el := SplitLines(e);
    assert (el + SplitLines(rest))[2..] == el[2..] + SplitLines(rest);
    ConcatAppend(el[2..], SplitLines(rest));
    ConcatSplitLines(rest);
  }

  /** Dropping 20 lines also drops the first entry's `msgctxt` and `msgid`
      lines: what remains of a template starts with that entry's `msgstr`. */
  lemma AsWrittenDropsFirstEntry(date: string, f: Field, rest: string)
    requires NoLineBreak(date) && OneLineField(f)
    ensures RemovePotHeaderAsWritten(Header(date) + (Render(Unlocated, "", f) + rest)) == Unlines(["msgstr \"\"", ""]) + rest
  {
    var e := Render(Unlocated, "", f);
    HeaderLines(date);
    UnlocatedEntryLines(f);
    DropLinesOfAppend(Header(date), e + rest, 20);
    EntryTail(f);
    DropTwoOfFour(e, rest);
  }

  /** Two templates whose first entries differ, and nothing else does, count
      as unchanged under the comparison as written. */
  lemma AsWrittenMissesFirstEntry(path: string, d1: string, d2: string, f1: Field, f2: Field, rest: string)
    requires NoLineBreak(d1) && NoLineBreak(d2) && OneLineField(f1) && OneLineField(f2)
    ensures !IsPotContentChangedAsWritten(
      map[path := Header(d1) + (Render(Unlocated, "", f1) + rest)], path,
      Header(d2) + (Render(Unlocated, "", f2) + rest))
  {
    AsWrittenDropsFirstEntry(d1, f1, rest);
    AsWrittenDropsFirstEntry(d2, f2, rest);
  }

  /** The `msgid` line gives back its text when the text has no backslash. */
  lemma MsgidLineInjective(a: string, b: string)
    requires '\\' !in a && '\\' !in b
    requires MsgidLine(a) == MsgidLine(b)
    ensures a == b
  {
    assert Escape(a) == MsgidLine(a)[7..|MsgidLine(a)| - 1];
    assert Escape(b) == MsgidLine(b)[7..|MsgidLine(b)| - 1];
    UnescapeEscape(a);
    UnescapeEscape(b);
  }

  /** Two entries for the same setting and field differ when their texts do. */
  lemma EntriesDifferWithText(f1: Field, f2: Field)
    requires OneLineField(f1) && OneLineField(f2)
    requires '\\' !in f1.text && '\\' !in f2.text && f1.text != f2.text
    ensures Render(Unlocated, "", f1) != Render(Unlocated, "", f2)
  {
    UnlocatedEntryLines(f1);
    UnlocatedEntryLines(f2);
    if Render(Unlocated, "", f1) == Render(Unlocated, "", f2) {
      var l1 := SplitLines(Render(Unlocated, "", f1))[1];
      assert l1 == MsgidLine(f1.text) + "\n" == MsgidLine(f2.text) + "\n";
      assert MsgidLine(f1.text) == l1[..|l1| - 1] == MsgidLine(f2.text);
      MsgidLineInjective(f1.text, f2.text);
    }
  }

  /** The template written for a settings file holding `fs`. */
  function SettingsTemplate(date: string, fs: seq<Field>): string {
    Header(date) + RenderAll(Unlocated, "", fs)
  }

  /** When the only string of a settings file changes its text, the comparison
      as written reports no change, so the previous template is put back and
      the new text is lost; the exact comparison reports the change. */
  lemma AsWrittenLosesOnlyChange(path: string, date: string, f1: Field, f2: Field)
    requires NoLineBreak(date) && OneLineField(f1) && OneLineField(f2)
    requires '\\' !in f1.text && '\\' !in f2.text && f1.text != f2.text
    ensures !IsPotContentChangedAsWritten(map[path := SettingsTemplate(date, [f1])], path, SettingsTemplate(date, [f2]))
    ensures IsPotContentChanged(map[path := SettingsTemplate(date, [f1])], path, SettingsTemplate(date, [f2]))
    ensures KeptContentAsWritten(map[path := SettingsTemplate(date, [f1])], path, SettingsTemplate(date, [f2])) == SettingsTemplate(date, [f1])
  {
    assert RenderAll(Unlocated, "", [f1]) == Render(Unlocated, "", f1) + "";
    assert RenderAll(Unlocated, "", [f2]) == Render(Unlocated, "", f2) + "";
    AsWrittenMissesFirstEntry(path, date, date, f1, f2, "");
    EntriesDifferWithText(f1, f2);
    assert Render(Unlocated, "", f1) + "" == Render(Unlocated, "", f1);
    assert Render(Unlocated, "", f2) + "" == Render(Unlocated, "", f2);
    assert RenderAll(Unlocated, "", [f1]) != RenderAll(Unlocated, "", [f2]);
    ChangedExactlyWhenEntriesDiffer(path, date, date, "", [f1], [f2]);
  }

  /** A concrete case: the label of a setting `speed` is renamed from `Old` to
      `New`, and the new label never reaches the template. */
  lemma RenamedLabelIsLost(date: string)
    requires NoLineBreak(date)
    ensures !IsPotContentChangedAsWritten(map["speed.def.json.pot" := SettingsTemplate(date, [Field("speed", "label", "Old")])],
      "speed.def.json.pot", SettingsTemplate(date, [Field("speed", "label", "New")]))
    ensures IsPotContentChanged(map["speed.def.json.pot" := SettingsTemplate(date, [Field("speed", "label", "Old")])],
      "speed.def.json.pot", SettingsTemplate(date, [Field("speed", "label", "New")]))
  {
    var f1, f2 := Field("speed", "label", "Old"), Field("speed", "label", "New");
    assert OneLineField(f1) && OneLineField(f2);
    AsWrittenLosesOnlyChange("speed.def.json.pot", date, f1, f2);
  }

  /** A settings file that does not inherit is always written: its header
      followed by one entry per translatable string, and nothing more when it
      holds none. */
  lemma WriteSettingTextWritesFields(fileName: string, doc: Json, date: string, destination: string)
    requires doc.JObject? && !HasKey(doc.members, "inherits")
    ensures Fields(SettingsToWrite(doc)).Err? ==>
      WriteSettingText(fileName, doc, date, destination) == Err(Fields(SettingsToWrite(doc)).error)
    ensures Fields(SettingsToWrite(doc)).Ok? ==>
      WriteSettingText(fileName, doc, date, destination) ==
        Ok(Some(PotFile(destination + "/" + fileName + ".pot",
                        Header(date) + RenderAll(Unlocated, fileName, Fields(SettingsToWrite(doc)).value))))
  {
    ProcessSettingsRendersFields(Unlocated, fileName, SettingsToWrite(doc));
  }

  /** Templates the extractor did not write before are never restored. */
  lemma NewTemplatesAreKept(saved: map<string, string>, path: string, current: string)
    requires path !in saved
    ensures KeptContent(saved, path, current) == current && !IsPotContentChanged(saved, path, current)
  {
  }

  /** A template counts as unchanged against itself, so running the extractor
      twice over the same project leaves the previous templates in place. */
  lemma SameContentIsUnchanged(saved: map<string, string>, path: string)
    requires path in saved
    ensures !IsPotContentChanged(saved, path, saved[path]) && KeptContent(saved, path, saved[path]) == saved[path]
  {
  }

  /** The entries of one valid manifest: the description entry when the
      manifest has one, then the name entry, appended to the template. */
  lemma PluginEntriesOfManifest(pot: string, path: string, doc: Json, name: string, description: Option<string>)
    requires !Contains(path, "test")
    requires doc.JObject? && Plugin.Valid(doc)
    requires Get(doc.members, "name") == Some(JString(name))
    requires description.Some? ==> Get(doc.members, "description") == Some(JString(description.value))
    requires description.None? ==> !HasKey(doc.members, "description")
    ensures ExtractPlugin(pot, [(path, doc)]) == Ok(
      pot + (if description.Some? then OpenedEntry("description", description.value) else "") + OpenedEntry("name", name))
  {
    Plugin.TextsOfManifest(doc, name, description);
    var first := if description.Some? then [("description", description.value)] else [];
    var texts := first + [("name", name)];
    var ms := [(path, doc)];
    assert ms[0] == (path, doc) && ms[1..] == [];
    assert ExtractPlugin(pot, ms) == ExtractPlugin(pot + PluginEntries(texts), []);
    PluginEntriesAppend(first, [("name", name)]);
    PluginEntriesOne(("name", name));
    var d := if description.Some? then OpenedEntry("description", description.value) else "";
    if description.Some? {
      PluginEntriesOne(("description", description.value));
    }
    assert PluginEntries(first) == d;
    assert PluginEntries(texts) == d + OpenedEntry("name", name);
    assert pot + (d + OpenedEntry("name", name)) == pot + d + OpenedEntry("name", name);
  }

  lemma PluginEntriesOne(t: (string, string))
    ensures PluginEntries([t]) == OpenedEntry(t.0, t.1)
  {
    assert [t][1..] == [];
    assert OpenedEntry(t.0, t.1) + "" == OpenedEntry(t.0, t.1);
  }

  /** The entries of a concatenation are those of each part, in order. */
  lemma {:induction false} PluginEntriesAppend(a: seq<(string, string)>, b: seq<(string, string)>)
    ensures PluginEntries(a + b) == PluginEntries(a) + PluginEntries(b)
  {
    if |a| == 0 {
      assert a + b == b;
    } else {
      assert (a + b)[0] == a[0];
      assert (a + b)[1..] == a[1..] + b;
      PluginEntriesAppend(a[1..], b);
    }
  }

  /** Manifests are handled in order: the later ones extend the template the
      earlier ones left, and the first failing manifest's error is the result. */
  lemma {:induction false} ExtractPluginAppend(pot: string, a: seq<(string, Json)>, b: seq<(string, Json)>)
    ensures ExtractPlugin(pot, a + b) ==
      (var ra := ExtractPlugin(pot, a); if ra.Err? then Err(ra.error) else ExtractPlugin(ra.value, b))
    decreases |a|
  {
    if |a| == 0 {
      assert a + b == b;
    } else {
      assert (a + b)[0] == a[0];
      assert (a + b)[1..] == a[1..] + b;
      if Contains(a[0].0, "test") {
        ExtractPluginAppend(pot, a[1..], b);
      } else {
        var texts := Plugin.Texts(a[0].1);
        if texts.Ok? {
          ExtractPluginAppend(pot + PluginEntries(texts.value), a[1..], b);
        }
      }
    }
  }

  /** Manifests under a `test` path add nothing. */
  lemma {:induction false} TestManifestsIgnored(pot: string, manifests: seq<(string, Json)>, tests: seq<(string, Json)>)
    requires forall i :: 0 <= i < |tests| ==> Contains(tests[i].0, "test")
    ensures ExtractPlugin(pot, tests + manifests) == ExtractPlugin(pot, manifests)
    decreases |tests|
  {
    if |tests| == 0 {
      assert tests + manifests == manifests;
    } else {
      assert (tests + manifests)[0] == tests[0];
      assert (tests + manifests)[1..] == tests[1..] + manifests;
      assert ExtractPlugin(pot, tests + manifests) == ExtractPlugin(pot, tests[1..] + manifests);
      TestManifestsIgnored(pot, manifests, tests[1..]);
    }
  }

  /** Each `xgettext` command line splits back into its arguments when the
      paths contain no spaces. */
  lemma XgettextCommandWords(bindir: string, language: string, pot: string, path: string)
    requires ' ' !in bindir && ' ' !in language && ' ' !in pot && ' ' !in path
    ensures Split(XgettextCommand(bindir, language, pot, path), " ") == XgettextArgs(bindir, language, pot, path)
  {
    var ws := XgettextArgs(bindir, language, pot, path);
    forall i | 0 <= i < |ws| ensures ' ' !in ws[i] {
      if i == 0 {
        assert ws[0] == bindir + "/xgettext";
      } else if i == 5 {
        assert ws[5] == "--language=" + language;
      }
    }
    SplitJoin(ws, ' ');
  }

  /** A file inside a `venv` directory is never scanned; every other file is,
      in order. */
  lemma VenvFilesSkipped(bindir: string, language: string, pot: string, paths: seq<string>, venv: seq<string>)
    requires forall i :: 0 <= i < |venv| ==> !OutsideVenv(venv[i])
    ensures ExtractSources(bindir, language, pot, venv + paths) == ExtractSources(bindir, language, pot, paths)
  {
    FilterAppend(venv, paths, OutsideVenv);
    FilterNone(venv, OutsideVenv);
  }
}
