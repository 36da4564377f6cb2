/** `scripts/create_pypi_recipe.py`: the Conan requirement list written into a
    recipe generated from a package's PyPI metadata. The PyPI query, the
    template and the file writing are outside the model; `requiresDist` is
    the `info.requires_dist` field (`None` for JSON `null`).
 */
module PypiRecipe {
  import opened Wrappers
  import opened Strings

  /** The indentation of each requirement line. */
  const Indent: string := "                "
  /** The text the list starts with: a comma, a line continuation and the
      first line's indentation. */
  const Lead: string := ",\\\n" + Indent
  /** The text after each reference: its closing quote, a comma and the next
      line's indentation. */
  const Tail: string := "\",\n" + Indent
  /** The range of a requirement without a version specifier. */
  const AnyVersion: string := "[>=0.0.0]"
  /** The user and channel every generated reference points at. */
  const UserChannel: string := "@lulzbot/testing"

  /** The Conan version range of a parenthesised PEP 508 specifier, `spec`
      being what follows `" ("` (its closing parenthesis included): the
      last character dropped, then spaces dropped and commas turned into the
      spaces Conan separates range clauses with. */
  function Range(spec: string): (r: string)
    ensures |r| >= 2 && r[0] == '[' && r[|r| - 1] == ']'
    ensures ',' !in r
    ensures r == "[" + RangeText(DropLast(spec, 1)) + "]"
  {
    var compact := Replace(DropLast(spec, 1), " ", "");
    ReplaceCharRemoves(compact, ',', " ");
    RangeTextIsReplaces(DropLast(spec, 1));
    "[" + Replace(compact, ",", " ") + "]"
  }

  /** The inside of a range, character by character: a space is dropped, a
      comma becomes a space, and every other character is kept. */
  function RangeText(s: string): (r: string)
    ensures |r| <= |s|
  {
    if |s| == 0 then ""
    else (if s[0] == ' ' then "" else if s[0] == ',' then " " else [s[0]]) + RangeText(s[1..])
  }

  /** The two chained replacements of the script compute `RangeText`. */
  lemma {:induction false} RangeTextIsReplaces(s: string)
    ensures Replace(Replace(s, " ", ""), ",", " ") == RangeText(s)
    decreases |s|
  {
    if |s| > 0 {
      RangeTextIsReplaces(s[1..]);
      var rest := Replace(s[1..], " ", "");
      if s[0] == ' ' {
        assert StartsWith(s, " ");
        assert Replace(s, " ", "") == rest;
      } else {
        assert !StartsWith(s, " ");
        assert Replace(s, " ", "") == [s[0]] + rest;
        var t := [s[0]] + rest;
        assert t[1..] == rest;
        if s[0] == ',' {
          assert StartsWith(t, ",");
        } else {
          assert !StartsWith(t, ",");
        }
      }
    }
  }

  /** Two clauses `a, b)` give the range `[a b]`: the comma and its space
      become one space. */
  lemma TwoClauseRange(a: string, b: string)
    requires ' ' !in a && ',' !in a && ' ' !in b && ',' !in b
    ensures Range(a + ", " + b + ")") == "[" + a + " " + b + "]"
  {
    var inner := a + (", " + b);
    assert a + ", " + b + ")" == inner + ")";
    RangeOfInner(inner);
    assert RangeText(inner) == a + (" " + b) by {
      CommaClause(b);
      RangeTextOfPlain(a);
      RangeTextAppend(a, ", " + b);
    }
    assert "[" + (a + (" " + b)) + "]" == "[" + a + " " + b + "]";
  }

  /** A specifier closed by its parenthesis gives the range of its inside. */
  lemma RangeOfInner(inner: string)
    ensures Range(inner + ")") == "[" + RangeText(inner) + "]"
  {
    assert DropLast(inner + ")", 1) == inner by {
      assert (inner + ")")[..|inner|] == inner;
    }
  }

  /** A clause after a comma and a space is that clause after one space. */
  lemma CommaClause(b: string)
    requires ' ' !in b && ',' !in b
    ensures RangeText(", " + b) == " " + b
  {
    RangeTextOfPlain(b);
    RangeTextAppend(", ", b);
    assert RangeText(", ") == " " by {
      assert ", "[1..] == " ";
      assert " "[1..] == "";
    }
  }

  /** `RangeText` of a concatenation is that of each part. */
  lemma {:induction false} RangeTextAppend(a: string, b: string)
    ensures RangeText(a + b) == RangeText(a) + RangeText(b)
    decreases |a|
  {
    if |a| == 0 {
      assert a + b == b;
    } else {
      assert (a + b)[0] == a[0];
      assert (a + b)[1..] == a[1..] + b;
      RangeTextAppend(a[1..], b);
    }
  }

  /** A text without spaces or commas is its own `RangeText`. */
  lemma {:induction false} RangeTextOfPlain(s: string)
    requires ' ' !in s && ',' !in s
    ensures RangeText(s) == s
    decreases |s|
  {
    if |s| > 0 {
      assert s[1..] == s[1..];
      assert forall c :: c in s[1..] ==> c in s;
      RangeTextOfPlain(s[1..]);
      assert [s[0]] + s[1..] == s;
    }
  }

  /** The reference written for one `requires_dist` entry, up to and without
      its closing quote: `"name/range@lulzbot/testing`. The environment
      marker after `;` is dropped. */
  function Entry(requirement: string): (r: string)
    ensures |r| > |UserChannel| && r[0] == '"'
    ensures r[|r| - |UserChannel|..] == UserChannel
  {
    var spec := Split(requirement, ";")[0];
    var parts := Split(spec, " (");
    var range := if |parts| == 2 then Range(parts[1]) else AnyVersion;
    var r := "\"" + Replace(parts[0], " ", "") + "/" + range + UserChannel;
    assert r[|r| - |UserChannel|..] == UserChannel;
    r
  }

  function Entries(reqs: seq<string>): (r: seq<string>)
    ensures |r| == |reqs| && forall i :: 0 <= i < |reqs| ==> r[i] == Entry(reqs[i])
  {
    seq(|reqs|, i requires 0 <= i < |reqs| => Entry(reqs[i]))
  }

  /** The first `n` entries, each closed by `Tail`. */
  function Lines(entries: seq<string>, n: nat): string
    requires n <= |entries|
  {
    if n == 0 then "" else Lines(entries, n - 1) + entries[n - 1] + Tail
  }

  /** The closed entries are the entries joined by `Tail`, plus a final `Tail`. */
  lemma {:induction false} LinesAreJoinedEntries(entries: seq<string>, n: nat)
    requires 0 < n <= |entries|
    ensures Lines(entries, n) == Join(entries[..n], Tail) + Tail
  {
    var last := entries[n - 1];
    if n == 1 {
      assert entries[..1] == [last];
      assert Join([last], Tail) == last + JoinRest([], Tail);
    } else {
      LinesAreJoinedEntries(entries, n - 1);
      assert entries[..n] == entries[..n - 1] + [last];
      JoinAppend(entries[..n - 1], last, Tail);
    }
  }

  /** The `requirements += ...` loop over the entries and the trim after
      it: `Lead` for no entries, else `Lead` followed by the entries joined
      by `Tail`, the final `Tail` cut off with the last 19 characters. */
  method AppendLines(entries: seq<string>) returns (text: string)
    ensures |entries| == 0 ==> text == Lead
    ensures |entries| > 0 ==> text == Lead + Join(entries, Tail)
  {
    text := Lead;
    var i := 0;
    while i < |entries|
      invariant 0 <= i <= |entries|
      invariant text == Lead + Lines(entries, i)
    {
      text := text + entries[i] + Tail;
      i := i + 1;
    }
    assert |Lead| == 19 && |Tail| == 19;
    if |entries| > 0 {
      LinesAreJoinedEntries(entries, |entries|);
      assert entries[..|entries|] == entries;
      var joined := Join(entries, Tail);
      assert text == Lead + joined + Tail;
      text := text[..|text| - 19];
      assert text == Lead + joined;
    }
  }

  /** The requirements text of `main()`: empty when PyPI lists no
      requirements (`null`), `Lead` alone for an empty list, and otherwise
      `Lead` followed by the entries joined by `Tail`, the last `Tail` (and
      with it the last entry's closing quote) trimmed away. */
  method RequirementsText(requiresDist: Option<seq<string>>) returns (text: string)
    ensures requiresDist.None? ==> text == ""
    ensures requiresDist == Some([]) ==> text == Lead
    ensures requiresDist.Some? && |requiresDist.value| > 0 ==>
      text == Lead + Join(Entries(requiresDist.value), Tail)
  {
    if requiresDist.None? {
      return "";
    }
    text := AppendLines(Entries(requiresDist.value));
  }

  /** A requirement's environment marker does not change its reference. */
  lemma MarkerIsDropped(spec: string, marker: string)
    requires ';' !in spec
    ensures Entry(spec + ";" + marker) == Entry(spec)
  {
    SplitAtFirst(spec, ';', marker);
    SplitWithout(spec, ';');
  }

  /** A bare package name gets the open range. */
  lemma BareNameTakesAnyVersion(name: string)
    requires ';' !in name && !Contains(name, " (") && !Contains(name, " ")
    ensures Entry(name) == "\"" + name + "/" + AnyVersion + UserChannel
  {
    SplitWithout(name, ';');
    SplitAbsent(name, " (");
    ReplaceAbsent(name, " ", "");
  }

  /** A name followed by a parenthesised specifier gets that specifier's range. */
  lemma SpecifierGivesRange(name: string, spec: string)
    requires ';' !in name + " (" + spec
    requires !Contains(name, " ") && !Contains(name, " (") && !Contains(spec, " (")
    ensures Entry(name + " (" + spec) == "\"" + name + "/" + Range(spec) + UserChannel
  {
    var s := name + " (" + spec;
    SplitWithout(s, ';');
    NotContainsAppend(name, ' ', " (");
    assert " ("[..1] == " ";
    SplitAtFirstSep(name, " (", spec);
    SplitAbsent(spec, " (");
    ReplaceAbsent(name, " ", "");
  }

  /** The arguments `main()` renders the template with, apart from the
      metadata passed through unchanged. */
  datatype RenderArgs = RenderArgs(name: string, packageName: string, version: string, requirements: string)

  /** `package_name` is the capitalised name (first letter upper-cased, the
      rest lower-cased) and `requirements` the requirements text lower-cased
      character by character. */
  function Render(name: string, version: string, text: string): (r: RenderArgs)
    ensures r.name == name && r.version == version
    ensures |r.packageName| == |name| && (|name| > 0 ==> r.packageName[0] == UpperChar(name[0]))
    ensures forall i :: 1 <= i < |name| ==> r.packageName[i] == LowerChar(name[i])
    ensures |r.requirements| == |text|
    ensures forall i :: 0 <= i < |text| ==> r.requirements[i] == LowerChar(text[i])
    ensures forall i :: 0 <= i < |text| ==> !('A' <= r.requirements[i] <= 'Z')
    ensures Lower(r.requirements) == r.requirements
  {
    LowerIdempotent(text);
    RenderArgs(name, Capitalize(name), version, Lower(text))
  }
}
