/** The pieces of the PO format (chapter 3 of the GNU gettext manual, "The
    Format of PO Files") that the translation extractor writes: the escaping of
    a message, the four entry shapes it uses, and the path/charset rewrite
    applied to finished templates.
 */
module Gettext {
  import opened Strings
  import opened Lines

  /** `value.replace("\n", "\\n").replace("\"", "\\\"")` */
  function Escape(value: string): string {
    Replace(Replace(value, "\n", "\\n"), "\"", "\\\"")
  }

  /** A template file to write: where, and what. */
  datatype PotFile = PotFile(path: string, content: string)

  /** How one character of a value appears in a msgid. */
  function EscapeChar(c: char): string {
    if c == '\n' then "\\n" else if c == '"' then "\\\"" else [c]
  }

  /** Character-by-character escaping, the reference `Escape` is checked against. */
  function EscapeEach(value: string): string {
    if |value| == 0 then "" else EscapeChar(value[0]) + EscapeEach(value[1..])
  }

  /** Reads a msgid back: `\n` and `\"` become a newline and a quote. */
  function Unescape(e: string): string
    decreases |e|
  {
    if |e| >= 2 && e[0] == '\\' && e[1] == 'n' then "\n" + Unescape(e[2..])
    else if |e| >= 2 && e[0] == '\\' && e[1] == '"' then "\"" + Unescape(e[2..])
    else if |e| == 0 then ""
    else [e[0]] + Unescape(e[1..])
  }

  /** The location line `#: file`. */
  function LocationLine(file: string): string {
    "#: " + file
  }

  /** `msgctxt "<context>"` */
  function ContextLine(context: string): string {
    "msgctxt \"" + context + "\""
  }

  /** `msgid "<escaped value>"` */
  function MsgidLine(value: string): string {
    "msgid \"" + Escape(value) + "\""
  }

  /** An entry with a location comment and a trailing blank line:
      `#: file`, `msgctxt "<context>"`, `msgid "…"`, `msgstr ""`, blank. */
  function LocatedEntry(file: string, context: string, value: string): string {
    Unlines([LocationLine(file), ContextLine(context), MsgidLine(value), "msgstr \"\"", ""])
  }

  /** An entry without a location comment, closed by a blank line. */
  function UnlocatedEntry(context: string, value: string): string {
    Unlines([ContextLine(context), MsgidLine(value), "msgstr \"\"", ""])
  }

  /** An entry opened by a blank line and without a location comment. */
  function OpenedEntry(context: string, value: string): string {
    Unlines(["", ContextLine(context), MsgidLine(value), "msgstr \"\""])
  }

  /** The rewrite applied to a finished template: location paths become
      relative to the project root and the placeholder charset becomes UTF-8. */
  function SanitizeContent(content: string, root: string): string {
    Replace(Replace(content, "#: " + root + "/", "#: "), "charset=CHARSET", "charset=UTF-8")
  }

  /** The creation-date line; `date` is the `%Y-%m-%d %H:%M` rendering of the clock. */
  function DateLine(date: string): string {
    "\"POT-Creation-Date: " + date + "+0000\\n\""
  }

  /** The header entry both extractors write after their first comment line:
      the empty msgid and the template's metadata, one field per line. */
  function HeaderFields(date: string): seq<string> {
    HeaderFieldsTop + [DateLine(date)] + HeaderFieldsBottom
  }

  /** The metadata lines, written in pieces only to keep the proofs about
      their characters small. */
  const ProjectLine: string := "\"Project-Id-Version: " + "Uranium json " + "setting files\\n\""
  const BugsLine: string := "\"Report-Msgid-" + "Bugs-To: plugins" + "@ultimaker.com\\n\""
  const RevisionLine: string := "\"PO-Revision-" + "Date: YEAR-MO-DA " + "HO:MI+ZONE\\n\""
  const TranslatorLine: string := "\"Last-Translator: " + "FULL NAME <EMAIL" + "@ADDRESS>\\n\""
  const TeamLine: string := "\"Language-" + "Team: " + "LANGUAGE\\n\""
  const MimeLine: string := "\"MIME-" + "Version: " + "1.0\\n\""
  const ContentTypeLine: string := "\"Content-" + "Type: text/plain; " + "charset=UTF-8\\n\""
  const EncodingLine: string := "\"Content-Transfer-" + "Encoding: " + "8bit\\n\""

  const HeaderFieldsTop: seq<string> := ["msgid \"\"", "msgstr \"\"", ProjectLine, BugsLine]

  const HeaderFieldsBottom: seq<string> :=
    [RevisionLine, TranslatorLine, TeamLine, MimeLine, ContentTypeLine, EncodingLine]

  // ---------------------------------------------------------------------------
  // Lemmas

  /** A text assembled from three break-free pieces has no break. */
  lemma NoLineBreakOfPieces(a: string, b: string, c: string)
    requires NoLineBreak(a) && NoLineBreak(b) && NoLineBreak(c)
    ensures NoLineBreak(a + b + c)
  {
    NoLineBreakAppend(a, b);
    NoLineBreakAppend(a + b, c);
  }

  lemma ProjectLineHasNoBreak()
    ensures NoLineBreak(ProjectLine)
  {
    NoLineBreakOfPieces("\"Project-Id-Version: ", "Uranium json ", "setting files\\n\"");
  }

  lemma BugsLineHasNoBreak()
    ensures NoLineBreak(BugsLine)
  {
    NoLineBreakOfPieces("\"Report-Msgid-", "Bugs-To: plugins", "@ultimaker.com\\n\"");
  }

  lemma RevisionLineHasNoBreak()
    ensures NoLineBreak(RevisionLine)
  {
    NoLineBreakOfPieces("\"PO-Revision-", "Date: YEAR-MO-DA ", "HO:MI+ZONE\\n\"");
  }

  lemma TranslatorLineHasNoBreak()
    ensures NoLineBreak(TranslatorLine)
  {
    NoLineBreakOfPieces("\"Last-Translator: ", "FULL NAME <EMAIL", "@ADDRESS>\\n\"");
  }

  lemma TeamLineHasNoBreak()
    ensures NoLineBreak(TeamLine)
  {
    NoLineBreakOfPieces("\"Language-", "Team: ", "LANGUAGE\\n\"");
  }

  lemma MimeLineHasNoBreak()
    ensures NoLineBreak(MimeLine)
  {
    NoLineBreakOfPieces("\"MIME-", "Version: ", "1.0\\n\"");
  }

  lemma ContentTypeLineHasNoBreak()
    ensures NoLineBreak(ContentTypeLine)
  {
    NoLineBreakOfPieces("\"Content-", "Type: text/plain; ", "charset=UTF-8\\n\"");
  }

  lemma EncodingLineHasNoBreak()
    ensures NoLineBreak(EncodingLine)
  {
    NoLineBreakOfPieces("\"Content-Transfer-", "Encoding: ", "8bit\\n\"");
  }

  lemma HeaderFieldsTopAreLines()
    ensures AllNoLineBreak(HeaderFieldsTop)
  {
    ProjectLineHasNoBreak();
    BugsLineHasNoBreak();
    assert NoLineBreak(HeaderFieldsTop[0]);
    assert NoLineBreak(HeaderFieldsTop[1]);
  }

  lemma HeaderFieldsBottomAreLines()
    ensures AllNoLineBreak(HeaderFieldsBottom)
  {
    RevisionLineHasNoBreak();
    TranslatorLineHasNoBreak();
    TeamLineHasNoBreak();
    MimeLineHasNoBreak();
    ContentTypeLineHasNoBreak();
    EncodingLineHasNoBreak();
  }

  /** The header fields are eleven lines without breaks, the fifth giving the date. */
  lemma HeaderFieldsAreLines(date: string)
    requires NoLineBreak(date)
    ensures |HeaderFields(date)| == 11 && HeaderFields(date)[4] == DateLine(date)
    ensures AllNoLineBreak(HeaderFields(date))
  {
    HeaderFieldsTopAreLines();
    HeaderFieldsBottomAreLines();
    NoLineBreakOfPieces("\"POT-Creation-Date: ", date, "+0000\\n\"");
    var fs := HeaderFields(date);
    forall i | 0 <= i < |fs| ensures NoLineBreak(fs[i]) {
      if i < 4 {
        assert fs[i] == HeaderFieldsTop[i];
      } else if i > 4 {
        assert fs[i] == HeaderFieldsBottom[i - 5];
      }
    }
  }

  /** Only the date varies between two header texts built around the fields. */
  lemma HeaderFieldsDetermineDate(top: seq<string>, d1: string, d2: string, bottom: seq<string>)
    ensures Unlines(top + HeaderFields(d1) + bottom) == Unlines(top + HeaderFields(d2) + bottom) <==> d1 == d2
  {
    var pre := Unlines(top + HeaderFieldsTop) + "\"POT-Creation-Date: ";
    var post := "+0000\\n\"" + "\n" + Unlines(HeaderFieldsBottom + bottom);
    forall d: string ensures Unlines(top + HeaderFields(d) + bottom) == pre + d + post {
      assert top + HeaderFields(d) + bottom == (top + HeaderFieldsTop) + ([DateLine(d)] + (HeaderFieldsBottom + bottom));
      UnlinesAppend(top + HeaderFieldsTop, [DateLine(d)] + (HeaderFieldsBottom + bottom));
      UnlinesAppend([DateLine(d)], HeaderFieldsBottom + bottom);
    }
    if Unlines(top + HeaderFields(d1) + bottom) == Unlines(top + HeaderFields(d2) + bottom) {
      assert |d1| == |d2|;
      assert d1 == (pre + d1 + post)[|pre|..|pre| + |d1|];
      assert d2 == (pre + d2 + post)[|pre|..|pre| + |d2|];
    }
  }

  lemma {:induction false} ReplaceCharAppend(a: string, b: string, c: char, repl: string)
    ensures Replace(a + b, [c], repl) == Replace(a, [c], repl) + Replace(b, [c], repl)
  {
    if |a| == 0 {
      assert a + b == b;
    } else {
      assert (a + b)[0] == a[0];
      assert (a + b)[1..] == a[1..] + b;
      assert (a + b)[..1] == [a[0]] && a[..1] == [a[0]];
      ReplaceCharAppend(a[1..], b, c, repl);
    }
  }

  /** The two `replace` calls escape each character on its own. */
  lemma {:induction false} EscapeIsPerCharacter(value: string)
    ensures Escape(value) == EscapeEach(value)
  {
    if |value| > 0 {
      var x := value[0];
      var first := Replace([x], "\n", "\\n");
      assert value == [x] + value[1..];
      ReplaceCharAppend([x], value[1..], '\n', "\\n");
      ReplaceCharAppend(first, Replace(value[1..], "\n", "\\n"), '"', "\\\"");
      EscapeIsPerCharacter(value[1..]);
      assert Replace(first, "\"", "\\\"") == EscapeChar(x) by {
        if x == '\n' {
          assert first == "\\n";
          assert Replace("\\n", "\"", "\\\"") == "\\n" by {
            assert !StartsWith("\\n", "\"");
            assert !StartsWith("n", "\"");
          }
        } else if x == '"' {
          assert first == [x];
        } else {
          assert first == [x];
          assert !StartsWith([x], "\"");
        }
      }
    }
  }

  lemma {:induction false} EscapeEachAppend(a: string, b: string)
    ensures EscapeEach(a + b) == EscapeEach(a) + EscapeEach(b)
  {
    if |a| == 0 {
      assert a + b == b;
    } else {
      assert (a + b)[1..] == a[1..] + b;
      EscapeEachAppend(a[1..], b);
    }
  }

  /** An escaped value has no raw newline, and every quote in it is escaped. */
  lemma {:induction false} EscapedIsOneQuotedLine(value: string)
    ensures '\n' !in Escape(value)
    ensures forall i :: 0 <= i < |Escape(value)| && Escape(value)[i] == '"' ==>
      i > 0 && Escape(value)[i - 1] == '\\'
  {
    EscapeIsPerCharacter(value);
    EscapeEachShape(value);
  }

  lemma {:induction false} EscapeEachShape(value: string)
    ensures '\n' !in EscapeEach(value)
    ensures forall i :: 0 <= i < |EscapeEach(value)| && EscapeEach(value)[i] == '"' ==>
      i > 0 && EscapeEach(value)[i - 1] == '\\'
  {
    if |value| > 0 {
      EscapeEachShape(value[1..]);
      var h := EscapeChar(value[0]);
      var t := EscapeEach(value[1..]);
      assert EscapeEach(value) == h + t;
      forall i | 0 <= i < |h + t| && (h + t)[i] == '"'
        ensures i > 0 && (h + t)[i - 1] == '\\'
      {
        if i >= |h| {
          assert (h + t)[i] == t[i - |h|];
          if i - |h| == 0 {
            assert false;
          }
        }
      }
    }
  }

  /** A value without line boundaries other than `\n` escapes to text with none. */
  lemma {:induction false} EscapeHasNoLineBreak(value: string)
    requires forall i :: 0 <= i < |value| && value[i] != '\n' ==> !IsLineBreak(value[i])
    ensures NoLineBreak(Escape(value))
  {
    EscapeIsPerCharacter(value);
    EscapeEachNoLineBreak(value);
  }

  lemma {:induction false} EscapeEachNoLineBreak(value: string)
    requires forall i :: 0 <= i < |value| && value[i] != '\n' ==> !IsLineBreak(value[i])
    ensures NoLineBreak(EscapeEach(value))
  {
    if |value| > 0 {
      EscapeEachNoLineBreak(value[1..]);
      assert EscapeEach(value) == EscapeChar(value[0]) + EscapeEach(value[1..]);
    }
  }

  /** Escaping is undone by `Unescape` for values without backslashes. */
  lemma {:induction false} UnescapeEscape(value: string)
    requires '\\' !in value
    ensures Unescape(Escape(value)) == value
  {
    EscapeIsPerCharacter(value);
    UnescapeEscapeEach(value);
  }

  lemma {:induction false} UnescapeEscapeEach(value: string)
    requires '\\' !in value
    ensures Unescape(EscapeEach(value)) == value
  {
    if |value| > 0 {
      var x := value[0];
      UnescapeEscapeEach(value[1..]);
      var t := EscapeEach(value[1..]);
      assert EscapeEach(value) == EscapeChar(x) + t;
      if x == '\n' {
        assert ("\\n" + t)[2..] == t;
      } else if x == '"' {
        assert ("\\\"" + t)[2..] == t;
      } else {
        assert ([x] + t)[1..] == t;
      }
      assert value == [x] + value[1..];
    }
  }

  /** Backslashes are not escaped, so two different values can share a msgid:
      a newline and the two characters backslash, `n`. */
  lemma EscapeNotInjective()
    ensures Escape("\n") == Escape("\\n") && "\n" != "\\n"
  {
    EscapeIsPerCharacter("\n");
    EscapeIsPerCharacter("\\n");
    assert EscapeEach("\\n") == EscapeChar('\\') + EscapeEach("n");
  }

  /** A located entry is exactly five lines when its parts contain no line
      boundaries: location, context, msgid, empty msgstr, blank. */
  lemma LocatedEntryLines(file: string, context: string, value: string)
    requires NoLineBreak(file) && NoLineBreak(context)
    requires forall i :: 0 <= i < |value| && value[i] != '\n' ==> !IsLineBreak(value[i])
    ensures SplitLines(LocatedEntry(file, context, value)) ==
      WithNewlines([LocationLine(file), ContextLine(context), MsgidLine(value), "msgstr \"\"", ""])
  {
    EscapeHasNoLineBreak(value);
    NoLineBreakOfPieces("#: ", file, "");
    NoLineBreakOfPieces("msgctxt \"", context, "\"");
    NoLineBreakOfPieces("msgid \"", Escape(value), "\"");
    assert "#: " + file + "" == LocationLine(file);
    SplitLinesUnlines([LocationLine(file), ContextLine(context), MsgidLine(value), "msgstr \"\"", ""]);
  }

  /** Sanitising leaves a template without either pattern unchanged. */
  lemma SanitizeWithoutPatterns(content: string, root: string)
    requires !Contains(content, "#: " + root + "/")
    requires !Contains(content, "charset=CHARSET")
    ensures SanitizeContent(content, root) == content
  {
    ReplaceAbsent(content, "#: " + root + "/", "#: ");
    ReplaceAbsent(content, "charset=CHARSET", "charset=UTF-8");
  }

  /** Sanitising rewrites every occurrence of each pattern: it splits the text
      at the occurrences and rejoins it with the replacement. */
  lemma SanitizeRewritesEveryOccurrence(content: string, root: string)
    ensures SanitizeContent(content, root) ==
      Join(Split(Join(Split(content, "#: " + root + "/"), "#: "), "charset=CHARSET"), "charset=UTF-8")
  {
    ReplaceIsJoinOfSplit(content, "#: " + root + "/", "#: ");
    ReplaceIsJoinOfSplit(Replace(content, "#: " + root + "/", "#: "), "charset=CHARSET", "charset=UTF-8");
  }

  /** A located entry is its location line followed by the unlocated entry. */
  lemma LocatedIsLocationPlusUnlocated(file: string, context: string, value: string)
    ensures LocatedEntry(file, context, value) == LocationLine(file) + "\n" + UnlocatedEntry(context, value)
  {
    var ls := [ContextLine(context), MsgidLine(value), "msgstr \"\"", ""];
    assert [LocationLine(file), ContextLine(context), MsgidLine(value), "msgstr \"\"", ""] == [LocationLine(file)] + ls;
    UnlinesAppend([LocationLine(file)], ls);
  }

  /** Every entry shape ends in a newline and contains its context line. */
  lemma EntriesAreTerminated(file: string, context: string, value: string)
    ensures Terminated(LocatedEntry(file, context, value))
    ensures Terminated(UnlocatedEntry(context, value))
    ensures Terminated(OpenedEntry(context, value))
    ensures |UnlocatedEntry(context, value)| > 0 && |OpenedEntry(context, value)| > 0
  {
    UnlinesTerminated([LocationLine(file), ContextLine(context), MsgidLine(value), "msgstr \"\"", ""]);
    UnlinesTerminated([ContextLine(context), MsgidLine(value), "msgstr \"\"", ""]);
    UnlinesTerminated(["", ContextLine(context), MsgidLine(value), "msgstr \"\""]);
  }
}
