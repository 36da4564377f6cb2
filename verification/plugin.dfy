/** Reading a `plugin.json` manifest for its translatable strings, as both
    extractors do: a manifest is valid when it has a `name`, a `version` and
    either an `api` or a `supported_sdk_versions`; a valid manifest yields its
    `description` (when present) and then its `name`.
 */
module Plugin {
  import opened Wrappers
  import opened Json
  import opened SettingsTree

  /** The validity test of the manifest. */
  predicate Valid(doc: Json) {
    Has(doc, "name") && (Has(doc, "api") || Has(doc, "supported_sdk_versions")) && Has(doc, "version")
  }

  /** The field names and texts of a manifest to translate, in the order the
      entries are written. The first `in` test raises `TypeError` on a
      manifest that is a number, boolean or null. */
  function Texts(doc: Json): (r: Result<seq<(string, string)>>)
    ensures doc.JScalar? ==> r == Err(TypeError)
    ensures r.Ok? && !Valid(doc) ==> r.value == []
    ensures r.Ok? && Valid(doc) ==> 1 <= |r.value| <= 2 && r.value[|r.value| - 1].0 == "name"
    ensures r.Ok? && |r.value| == 2 ==> r.value[0].0 == "description"
  {
    if doc.JScalar? then Err(TypeError)
    else if !Valid(doc) then Ok([])
    else
      var description :-
        if Has(doc, "description") then
          var v :- Member(doc, "description");
          var text :- AsStr(v);
          Ok([("description", text)])
        else Ok([]);
      var v :- Member(doc, "name");
      var name :- AsStr(v);
      Ok(description + [("name", name)])
  }

  /** A valid object manifest with string texts yields exactly its name and,
      before it, its description. */
  lemma TextsOfManifest(doc: Json, name: string, description: Option<string>)
    requires doc.JObject? && Valid(doc)
    requires Get(doc.members, "name") == Some(JString(name))
    requires description.Some? ==> Get(doc.members, "description") == Some(JString(description.value))
    requires description.None? ==> !HasKey(doc.members, "description")
    ensures Texts(doc) == Ok(
      (if description.Some? then [("description", description.value)] else []) + [("name", name)])
  {
  }

  /** A manifest missing `version` is skipped whatever else it holds. */
  lemma NoVersionNoTexts(doc: Json)
    requires doc.JObject? && !HasKey(doc.members, "version")
    ensures Texts(doc) == Ok([])
  {
  }
}
