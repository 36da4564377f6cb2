/** The standalone settings-to-template script: one `.pot` file per settings
    JSON file, with a 13-line header followed by one located entry per
    translatable string.
 */
module SettingsPot {
  import opened Wrappers
  import opened Strings
  import opened Lines
  import opened Json
  import opened Gettext
  import opened SettingsTree

  /** `create_pot_header()`: a fuzzy-marker comment, the header fields and a
      blank line. */
  function Header(date: string): string {
    Unlines(["#, fuzzy"] + HeaderFields(date) + [""])
  }

  /** `write_setting_text(json_path, destination_path)` for a file named
      `fileName` whose parsed content is `doc`: the file to write, if any. */
  function WriteSettingText(fileName: string, doc: Json, date: string, destination: string): (r: Result<Option<PotFile>>)
    ensures doc.JScalar? ==> r == Err(TypeError)
    ensures doc.JObject? && !HasKey(doc.members, "settings") ==> r == Ok(None)
    ensures r.Ok? && r.value.Some? ==>
      r.value.value.path == destination + "/" + fileName + ".pot" &&
      StartsWith(r.value.value.content, Header(date)) &&
      |r.value.value.content| > |Header(date)|
  {
    var hasSettings :- In("settings", doc);
    var entries :-
      if !hasSettings then Ok("")
      else
        var settings :- Member(doc, "settings");
        ProcessSettings(Located, fileName, settings);
    if entries == "" then Ok(None)
    else
      var content := Header(date) + entries;
      assert content[..|Header(date)|] == Header(date);
      Ok(Some(PotFile(destination + "/" + fileName + ".pot", content)))
  }

  // ---------------------------------------------------------------------------
  // Lemmas

  /** `setting_dict["settings"]` */
  function SettingsOf(doc: Json): Json
    requires doc.JObject? && HasKey(doc.members, "settings")
  {
    Get(doc.members, "settings").value
  }

  /** A file is written exactly when the `settings` object holds at least one
      translatable string, and it holds the header followed by one located
      entry per string, in order. */
  lemma WriteSettingTextWritesFields(fileName: string, doc: Json, date: string, destination: string)
    requires doc.JObject? && HasKey(doc.members, "settings")
    ensures Fields(SettingsOf(doc)).Err? ==>
      WriteSettingText(fileName, doc, date, destination) == Err(Fields(SettingsOf(doc)).error)
    ensures Fields(SettingsOf(doc)) == Ok([]) ==>
      WriteSettingText(fileName, doc, date, destination) == Ok(None)
    ensures Fields(SettingsOf(doc)).Ok? && |Fields(SettingsOf(doc)).value| > 0 ==>
      WriteSettingText(fileName, doc, date, destination) ==
        Ok(Some(PotFile(destination + "/" + fileName + ".pot",
                        Header(date) + RenderAll(Located, fileName, Fields(SettingsOf(doc)).value))))
  {
    var settings := SettingsOf(doc);
    ProcessSettingsRendersFields(Located, fileName, settings);
    if Fields(settings).Ok? {
      RenderAllEmpty(Located, fileName, Fields(settings).value);
    }
  }

  /** The header is 13 lines, the sixth one carrying the date. */
  lemma HeaderLines(date: string)
    requires NoLineBreak(date)
    ensures |SplitLines(Header(date))| == 13
    ensures SplitLines(Header(date))[0] == "#, fuzzy\n"
    ensures SplitLines(Header(date))[5] == DateLine(date) + "\n"
    ensures SplitLines(Header(date))[12] == "\n"
    ensures Terminated(Header(date))
  {
    var ls := ["#, fuzzy"] + HeaderFields(date) + [""];
    HeaderFieldsAreLines(date);
    assert AllNoLineBreak(ls) by {
      forall i | 0 <= i < |ls| ensures NoLineBreak(ls[i]) {
        if 1 <= i < 12 {
          assert ls[i] == HeaderFields(date)[i - 1];
        }
      }
    }
    SplitLinesUnlines(ls);
  }

  /** Only the date varies: two headers are equal exactly when their dates are. */
  lemma HeaderDeterminesDate(d1: string, d2: string)
    ensures Header(d1) == Header(d2) <==> d1 == d2
  {
    HeaderFieldsDetermineDate(["#, fuzzy"], d1, d2, [""]);
  }
}
