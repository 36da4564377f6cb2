/** The walk over a Uranium settings tree that both settings extractors share.

    A settings object maps setting names to setting objects. Each setting may
    carry the text fields `label`, `description`, `warning_description` and
    `error_description`, an `options` object whose values are option labels,
    and a `children` settings object that is walked the same way. Every text
    found becomes one PO entry whose context is the setting name followed by
    the field name (`option <key>` for an option).

    The walk is given twice: `ProcessSettings` builds the text the way the
    recipes do, and `Fields` lists the translatable strings in the order they
    are met; `ProcessSettingsRendersFields` shows the text is the rendering of
    that list.
 */
module SettingsTree {
  import opened Wrappers
  import opened Strings
  import opened Lines
  import opened Json
  import opened Gettext

  /** The standalone script writes a `#: file` location above each entry; the
      recipe's extractor writes the entry alone. */
  datatype EntryStyle = Located | Unlocated

  /** One translatable string of a settings tree. */
  datatype Field = Field(setting: string, field: string, text: string)

  /** The text fields a setting may carry, in the order they are read. */
  const TextFields: seq<string> := ["label", "description", "warning_description", "error_description"]

  /** A field name the walk can produce: a text field or `option <key>`. */
  predicate ValidField(f: Field) {
    f.field in TextFields || StartsWith(f.field, "option ")
  }

  predicate AllValid(fs: seq<Field>) {
    forall i :: 0 <= i < |fs| ==> ValidField(fs[i])
  }

  /** The msgctxt of a field: `"{setting} {field}"`. */
  function Context(f: Field): string {
    f.setting + " " + f.field
  }

  function Render(style: EntryStyle, file: string, f: Field): string {
    match style
    case Located => LocatedEntry(file, Context(f), f.text)
    case Unlocated => UnlocatedEntry(Context(f), f.text)
  }

  function RenderAll(style: EntryStyle, file: string, fs: seq<Field>): string {
    if |fs| == 0 then "" else Render(style, file, fs[0]) + RenderAll(style, file, fs[1..])
  }

  /** Appends two results in evaluation order: the first error raised wins. */
  function Then<T>(a: Result<seq<T>>, b: Result<seq<T>>): Result<seq<T>> {
    match a
    case Err(e) => Err(e)
    case Ok(x) => match b
      case Err(e) => Err(e)
      case Ok(y) => Ok(x + y)
  }

  /** The rendered text of a list of fields, or the error that stopped the walk. */
  function Rendered(style: EntryStyle, file: string, r: Result<seq<Field>>): Result<string> {
    match r
    case Ok(fs) => Ok(RenderAll(style, file, fs))
    case Err(e) => Err(e)
  }

  // ---------------------------------------------------------------------------
  // The walk as the recipes write it: text built by concatenation

  /** `if field in value: entries += entry(file, name, field, value[field])` */
  function TextEntry(style: EntryStyle, file: string, name: string, value: Json, field: string): (r: Result<string>)
    ensures r.Err? ==> value.JScalar? || In(field, value) == Ok(true)
  {
    var present :- In(field, value);
    if !present then Ok("")
    else
      var v :- Member(value, field);
      var text :- AsStr(v);
      Ok(Render(style, file, Field(name, field, text)))
  }

  /** `for item, description in options.items(): entries += entry(file, name, "option " + item, description)` */
  function OptionEntries(style: EntryStyle, file: string, name: string, options: Dict<Json>): (r: Result<string>)
    ensures r.Err? <==> exists i :: 0 <= i < |options| && !options[i].1.JString?
  {
    if |options| == 0 then Ok("")
    else
      var text :- AsStr(options[0].1);
      var rest :- OptionEntries(style, file, name, options[1..]);
      assert forall i :: 1 <= i < |options| ==> options[i] == options[1..][i - 1];
      Ok(Render(style, file, Field(name, "option " + options[0].0, text)) + rest)
  }

  /** `process_settings(file, settings)`: `settings.items()` needs an object. */
  function ProcessSettings(style: EntryStyle, file: string, settings: Json): (r: Result<string>)
    ensures !settings.JObject? ==> r == Err(AttributeError)
    ensures settings == JObject([]) ==> r == Ok("")
    decreases settings, 1
  {
    match settings
    case JObject(m) => ProcessMembers(style, file, settings, 0)
    case _ => Err(AttributeError)
  }

  /** The entries of the members of `obj` from the `i`-th on. */
  function ProcessMembers(style: EntryStyle, file: string, obj: Json, i: nat): Result<string>
    requires obj.JObject? && i <= |obj.members|
    decreases obj, 0, |obj.members| - i
  {
    if i == |obj.members| then Ok("")
    else
      var here :- SettingEntries(style, file, obj.members[i].0, obj.members[i].1);
      var rest :- ProcessMembers(style, file, obj, i + 1);
      Ok(here + rest)
  }

  /** The text fields of a setting that it has, in the order of `fields`. */
  function TextEntries(style: EntryStyle, file: string, name: string, value: Json, fields: seq<string>): Result<string> {
    if |fields| == 0 then Ok("")
    else
      var here :- TextEntry(style, file, name, value, fields[0]);
      var rest :- TextEntries(style, file, name, value, fields[1..]);
      Ok(here + rest)
  }

  /** `key in value` for a value that supports `in`. */
  predicate Has(value: Json, key: string) {
    In(key, value) == Ok(true)
  }

  /** The entries of one setting: its text fields, its options, then its
      children. The first `in` test already raises `TypeError` on a number,
      boolean or null, so that case is settled up front. `value["children"]`
      is read through the member's position so that the recursion visibly
      descends into the tree. */
  function SettingEntries(style: EntryStyle, file: string, name: string, value: Json): (r: Result<string>)
    ensures value.JScalar? ==> r == Err(TypeError)
    decreases value, 2
  {
    if value.JScalar? then Err(TypeError)
    else
      var texts :- TextEntries(style, file, name, value, TextFields);
      var options :- if Has(value, "options") then OptionsOf(style, file, name, value) else Ok("");
      var children :-
        if !Has(value, "children") then Ok("")
        else if value.JObject? then ProcessSettings(style, file, value.members[KeyIndex(value.members, "children")].1)
        else Err(TypeError);
      Ok(texts + options + children)
  }

  /** `value["options"].items()` followed by the option entries. */
  function OptionsOf(style: EntryStyle, file: string, name: string, value: Json): Result<string> {
    var o :- Member(value, "options");
    var items :- Items(o);
    OptionEntries(style, file, name, items)
  }

  // ---------------------------------------------------------------------------
  // The same walk listing the strings it finds

  function TextFieldOf(name: string, value: Json, field: string): (r: Result<seq<Field>>)
    ensures r.Ok? ==> |r.value| <= 1
    ensures r.Ok? && field in TextFields ==> AllValid(r.value)
    ensures r.Ok? && |r.value| == 1 ==> r.value[0].setting == name && r.value[0].field == field
    ensures r == Ok([]) <==> In(field, value) == Ok(false)
  {
    var present :- In(field, value);
    if !present then Ok([])
    else
      var v :- Member(value, field);
      var text :- AsStr(v);
      Ok([Field(name, field, text)])
  }

  function OptionFields(name: string, options: Dict<Json>): (r: Result<seq<Field>>)
    ensures r.Ok? ==> |r.value| == |options| && AllValid(r.value)
    ensures r.Ok? ==> forall i :: 0 <= i < |options| ==>
      options[i].1.JString? && r.value[i] == Field(name, "option " + options[i].0, options[i].1.s)
  {
    if |options| == 0 then Ok([])
    else
      var text :- AsStr(options[0].1);
      var rest :- OptionFields(name, options[1..]);
      assert StartsWith("option " + options[0].0, "option ") by {
        assert ("option " + options[0].0)[..7] == "option ";
      }
      Ok([Field(name, "option " + options[0].0, text)] + rest)
  }

  /** The strings of a settings object, in the order the walk meets them. */
  function Fields(settings: Json): (r: Result<seq<Field>>)
    ensures !settings.JObject? ==> r == Err(AttributeError)
    ensures r.Ok? ==> AllValid(r.value)
    decreases settings, 1
  {
    match settings
    case JObject(m) => MemberFields(settings, 0)
    case _ => Err(AttributeError)
  }

  function MemberFields(obj: Json, i: nat): (r: Result<seq<Field>>)
    requires obj.JObject? && i <= |obj.members|
    ensures r.Ok? ==> AllValid(r.value)
    decreases obj, 0, |obj.members| - i
  {
    if i == |obj.members| then Ok([])
    else
      var here :- SettingFields(obj.members[i].0, obj.members[i].1);
      var rest :- MemberFields(obj, i + 1);
      Ok(here + rest)
  }

  function TextFieldsOf(name: string, value: Json, fields: seq<string>): (r: Result<seq<Field>>)
    requires forall i :: 0 <= i < |fields| ==> fields[i] in TextFields
    ensures r.Ok? ==> |r.value| <= |fields| && AllValid(r.value)
  {
    if |fields| == 0 then Ok([])
    else
      var here :- TextFieldOf(name, value, fields[0]);
      var rest :- TextFieldsOf(name, value, fields[1..]);
      Ok(here + rest)
  }

  function SettingFields(name: string, value: Json): (r: Result<seq<Field>>)
    ensures value.JScalar? ==> r == Err(TypeError)
    ensures r.Ok? ==> AllValid(r.value)
    decreases value, 2
  {
    if value.JScalar? then Err(TypeError)
    else
      var texts :- TextFieldsOf(name, value, TextFields);
      var options :- if Has(value, "options") then OptionFieldsOf(name, value) else Ok([]);
      var children :-
        if !Has(value, "children") then Ok([])
        else if value.JObject? then Fields(value.members[KeyIndex(value.members, "children")].1)
        else Err(TypeError);
      Ok(texts + options + children)
  }

  function OptionFieldsOf(name: string, value: Json): (r: Result<seq<Field>>)
    ensures r.Ok? ==> AllValid(r.value)
  {
    var o :- Member(value, "options");
    var items :- Items(o);
    OptionFields(name, items)
  }

  // ---------------------------------------------------------------------------
  // The text is the rendering of the list

  lemma {:induction false} RenderAllAppend(style: EntryStyle, file: string, a: seq<Field>, b: seq<Field>)
    ensures RenderAll(style, file, a + b) == RenderAll(style, file, a) + RenderAll(style, file, b)
  {
    if |a| == 0 {
      assert a + b == b;
    } else {
      assert (a + b)[0] == a[0];
      assert (a + b)[1..] == a[1..] + b;
      RenderAllAppend(style, file, a[1..], b);
    }
  }

  /** Rendered entries are never empty, so the text is empty exactly when no
      string was found. */
  lemma {:induction false} RenderAllEmpty(style: EntryStyle, file: string, fs: seq<Field>)
    ensures RenderAll(style, file, fs) == "" <==> |fs| == 0
  {
    if |fs| > 0 {
      var f := fs[0];
      EntriesAreTerminated(file, Context(f), f.text);
      UnlinesTerminated([LocationLine(file), ContextLine(Context(f)), MsgidLine(f.text), "msgstr \"\"", ""]);
      assert |Render(style, file, f)| > 0;
    }
  }

  lemma TextEntryRendersField(style: EntryStyle, file: string, name: string, value: Json, field: string)
    ensures TextEntry(style, file, name, value, field) == Rendered(style, file, TextFieldOf(name, value, field))
  {
    var r := TextFieldOf(name, value, field);
    if r.Ok? && |r.value| == 1 {
      var text := AsStr(Member(value, field).value).value;
      assert r.value == [Field(name, field, text)];
      assert TextEntry(style, file, name, value, field) == Ok(Render(style, file, Field(name, field, text)));
      assert r.value[1..] == [];
      assert RenderAll(style, file, r.value) == Render(style, file, r.value[0]);
    }
  }

  lemma {:induction false} OptionEntriesRenderFields(style: EntryStyle, file: string, name: string, options: Dict<Json>)
    ensures OptionEntries(style, file, name, options) == Rendered(style, file, OptionFields(name, options))
  {
    if |options| > 0 {
      OptionEntriesRenderFields(style, file, name, options[1..]);
    }
  }

  lemma OptionsOfRendersFields(style: EntryStyle, file: string, name: string, value: Json)
    ensures OptionsOf(style, file, name, value) == Rendered(style, file, OptionFieldsOf(name, value))
  {
    var o := Member(value, "options");
    if o.Ok? && o.value.JObject? {
      OptionEntriesRenderFields(style, file, name, o.value.members);
    }
  }

  /** The text the recipes build is the list of found strings, each rendered as
      one entry, in order; both walks fail with the same error. */
  lemma {:induction false} ProcessSettingsRendersFields(style: EntryStyle, file: string, settings: Json)
    ensures ProcessSettings(style, file, settings) == Rendered(style, file, Fields(settings))
    decreases settings, 1
  {
    if settings.JObject? {
      ProcessMembersRendersFields(style, file, settings, 0);
    }
  }

  lemma {:induction false} ProcessMembersRendersFields(style: EntryStyle, file: string, obj: Json, i: nat)
    requires obj.JObject? && i <= |obj.members|
    ensures ProcessMembers(style, file, obj, i) == Rendered(style, file, MemberFields(obj, i))
    decreases obj, 0, |obj.members| - i
  {
    if i < |obj.members| {
      SettingEntriesRenderFields(style, file, obj.members[i].0, obj.members[i].1);
      ProcessMembersRendersFields(style, file, obj, i + 1);
      var here := SettingFields(obj.members[i].0, obj.members[i].1);
      var rest := MemberFields(obj, i + 1);
      if here.Ok? && rest.Ok? {
        RenderAllAppend(style, file, here.value, rest.value);
      }
    }
  }

  lemma {:induction false} TextEntriesRenderFields(style: EntryStyle, file: string, name: string, value: Json, fields: seq<string>)
    requires forall i :: 0 <= i < |fields| ==> fields[i] in TextFields
    ensures TextEntries(style, file, name, value, fields) == Rendered(style, file, TextFieldsOf(name, value, fields))
  {
    if |fields| > 0 {
      TextEntryRendersField(style, file, name, value, fields[0]);
      TextEntriesRenderFields(style, file, name, value, fields[1..]);
      var here := TextFieldOf(name, value, fields[0]);
      var rest := TextFieldsOf(name, value, fields[1..]);
      if here.Ok? && rest.Ok? {
        RenderAllAppend(style, file, here.value, rest.value);
      }
    }
  }

  lemma {:induction false} SettingEntriesRenderFields(style: EntryStyle, file: string, name: string, value: Json)
    ensures SettingEntries(style, file, name, value) == Rendered(style, file, SettingFields(name, value))
    decreases value, 2
  {
    if !value.JScalar? {
      TextEntriesRenderFields(style, file, name, value, TextFields);
      OptionsOfRendersFields(style, file, name, value);
      if Has(value, "children") && value.JObject? {
        ProcessSettingsRendersFields(style, file, value.members[KeyIndex(value.members, "children")].1);
      }
      var r := SettingFields(name, value);
      if r.Ok? {
        var t := TextFieldsOf(name, value, TextFields).value;
        var o := (if Has(value, "options") then OptionFieldsOf(name, value) else Ok([])).value;
        var c := (if !Has(value, "children") then Ok([])
          else Fields(value.members[KeyIndex(value.members, "children")].1)).value;
        assert r.value == t + o + c;
        RenderAllAppend(style, file, t + o, c);
        RenderAllAppend(style, file, t, o);
      }
    }
  }

  // ---------------------------------------------------------------------------
  // Settings are visited in file order

  lemma {:induction false} MemberFieldsPrefix(m1: Dict<Json>, m2: Dict<Json>, i: nat)
    requires i <= |m1|
    ensures MemberFields(JObject(m1 + m2), i) == Then(MemberFields(JObject(m1), i), MemberFields(JObject(m2), 0))
    decreases |m1| - i
  {
    var whole := JObject(m1 + m2);
    if i == |m1| {
      assert (m1 + m2)[i..] == m2[0..];
      MemberFieldsShift(m1 + m2, i, m2, 0);
      var b := MemberFields(JObject(m2), 0);
      if b.Ok? {
        assert [] + b.value == b.value;
      }
    } else {
      assert whole.members[i] == m1[i];
      MemberFieldsPrefix(m1, m2, i + 1);
      var here := SettingFields(m1[i].0, m1[i].1);
      var a := MemberFields(JObject(m1), i + 1);
      var b := MemberFields(JObject(m2), 0);
      if here.Ok? && a.Ok? && b.Ok? {
        assert here.value + (a.value + b.value) == (here.value + a.value) + b.value;
      }
    }
  }

  /** The walk from a position depends only on the members from there on. */
  lemma {:induction false} MemberFieldsShift(m1: Dict<Json>, i: nat, m2: Dict<Json>, j: nat)
    requires i <= |m1| && j <= |m2| && m1[i..] == m2[j..]
    ensures MemberFields(JObject(m1), i) == MemberFields(JObject(m2), j)
    decreases |m1| - i
  {
    if i < |m1| {
      assert m1[i] == m1[i..][0] == m2[j..][0] == m2[j];
      assert m1[i + 1..] == m1[i..][1..];
      assert m2[j + 1..] == m2[j..][1..];
      MemberFieldsShift(m1, i + 1, m2, j + 1);
    }
  }

  /** Splitting a settings object in two lists the first part's strings before
      the second's, and the first error met is the one raised. */
  lemma FieldsAppend(m1: Dict<Json>, m2: Dict<Json>)
    ensures Fields(JObject(m1 + m2)) == Then(Fields(JObject(m1)), Fields(JObject(m2)))
  {
    MemberFieldsPrefix(m1, m2, 0);
  }
}
