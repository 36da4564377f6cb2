/** `str.splitlines(keepends=True)` with Python's full set of line boundaries:
    `\n`, `\r`, `\r\n` (one boundary), `\v`, `\f`, `\x1c`, `\x1d`, `\x1e`,
    `\x85`, U+2028 and U+2029.
 */
module Lines {
  import opened Strings

  predicate IsLineBreak(c: char) {
    || c == '\n' || c == '\r' || c == '\U{B}' || c == '\U{C}'
    || c == '\U{1C}' || c == '\U{1D}' || c == '\U{1E}' || c == '\U{85}'
    || c == '\U{2028}' || c == '\U{2029}'
  }

  predicate NoLineBreak(s: string) {
    forall i :: 0 <= i < |s| ==> !IsLineBreak(s[i])
  }

  /** Length of the first line of `s`, its line boundary included. */
  function LineLength(s: string): (n: nat)
    requires |s| > 0
    ensures 0 < n <= |s|
  {
    if s[0] == '\r' then (if |s| > 1 && s[1] == '\n' then 2 else 1)
    else if IsLineBreak(s[0]) || |s| == 1 then 1
    else 1 + LineLength(s[1..])
  }

  /** `s.splitlines(keepends=True)` */
  function SplitLines(s: string): (lines: seq<string>)
    ensures forall i :: 0 <= i < |lines| ==> |lines[i]| > 0
    decreases |s|
  {
    if |s| == 0 then [] else [s[..LineLength(s)]] + SplitLines(s[LineLength(s)..])
  }

  /** `"".join(ls)` */
  function Concat(ls: seq<string>): string {
    if |ls| == 0 then "" else ls[0] + Concat(ls[1..])
  }

  /** A string that `splitlines` returns whole, as a single line. */
  predicate IsLine(l: string) {
    |l| > 0 && LineLength(l) == |l|
  }

  predicate EndsWithBreak(l: string) {
    |l| > 0 && IsLineBreak(l[|l| - 1])
  }

  /** A string ending in a line boundary that a following `\n` cannot extend. */
  predicate Terminated(h: string) {
    |h| == 0 || (IsLineBreak(h[|h| - 1]) && h[|h| - 1] != '\r')
  }

  // ---------------------------------------------------------------------------
  // Lemmas

  lemma {:induction false} ConcatAppend(a: seq<string>, b: seq<string>)
    ensures Concat(a + b) == Concat(a) + Concat(b)
  {
    if |a| > 0 {
      assert (a + b)[0] == a[0];
      assert (a + b)[1..] == a[1..] + b;
      ConcatAppend(a[1..], b);
    } else {
      assert a + b == b;
    }
  }

  /** Joining the lines gives back the text: `"".join(s.splitlines(True)) == s`. */
  lemma {:induction false} ConcatSplitLines(s: string)
    ensures Concat(SplitLines(s)) == s
    decreases |s|
  {
    if |s| > 0 {
      var n := LineLength(s);
      ConcatSplitLines(s[n..]);
      assert s == s[..n] + s[n..];
    }
  }

  /** The first line is a line; it ends in a boundary unless it is all of `s`,
      and a first line ending in `\r` is not followed by `\n`. */
  lemma {:induction false} FirstLine(s: string)
    requires |s| > 0
    ensures IsLine(s[..LineLength(s)])
    ensures LineLength(s) < |s| ==> EndsWithBreak(s[..LineLength(s)])
    ensures LineLength(s) < |s| && s[LineLength(s) - 1] == '\r' ==> s[LineLength(s)] != '\n'
  {
    var n := LineLength(s);
    if s[0] == '\r' || IsLineBreak(s[0]) || |s| == 1 {
    } else {
      FirstLine(s[1..]);
      assert s[..n][1..] == s[1..][..n - 1];
    }
  }

  /** Appending text after a line ending in a boundary does not extend it, except
      that a `\r` absorbs a following `\n`. */
  lemma {:induction false} LineLengthAppend(l: string, t: string)
    requires IsLine(l) && EndsWithBreak(l)
    ensures LineLength(l + t) ==
      if l[|l| - 1] == '\r' && |t| > 0 && t[0] == '\n' then |l| + 1 else |l|
  {
    var s := l + t;
    if l[0] == '\r' || IsLineBreak(l[0]) {
      assert s[0] == l[0];
      if |l| > 1 {
        assert s[1] == l[1];
      } else {
        assert |t| > 0 ==> s[1] == t[0];
      }
    } else {
      assert |l| > 1;
      assert s[1..] == l[1..] + t;
      LineLengthAppend(l[1..], t);
    }
  }

  /** Splitting text whose front part is terminated splits the two parts apart. */
  lemma {:induction false} SplitLinesAppend(h: string, t: string)
    requires Terminated(h)
    ensures SplitLines(h + t) == SplitLines(h) + SplitLines(t)
    decreases |h|
  {
    if |h| == 0 {
      assert h + t == t;
    } else {
      var n := LineLength(h);
      FirstLineAppend(h, t);
      assert (h + t)[..n] == h[..n];
      assert (h + t)[n..] == h[n..] + t;
      assert Terminated(h[n..]) by {
        if n < |h| {
          assert h[n..][|h[n..]| - 1] == h[|h| - 1];
        }
      }
      SplitLinesAppend(h[n..], t);
    }
  }

  /** The first line of a terminated text stays the first line whatever follows. */
  lemma FirstLineAppend(h: string, t: string)
    requires |h| > 0 && Terminated(h)
    ensures LineLength(h + t) == LineLength(h)
  {
    var n := LineLength(h);
    var l := h[..n];
    FirstLine(h);
    assert h + t == l + (h[n..] + t);
    if n < |h| {
      assert (h[n..] + t)[0] == h[n];
    }
    LineLengthAppend(l, h[n..] + t);
  }

  /** A text without boundaries followed by `\n` is one line. */
  lemma {:induction false} TextLine(c: string)
    requires NoLineBreak(c)
    ensures SplitLines(c + "\n") == [c + "\n"]
    ensures Terminated(c + "\n")
    decreases |c|
  {
    var s := c + "\n";
    if |c| > 0 {
      assert s[1..] == c[1..] + "\n";
      TextLine(c[1..]);
      assert LineLength(s) == |s|;
    }
    assert s[..LineLength(s)] == s;
  }

  /** A concatenation of terminated texts is terminated. */
  lemma TerminatedAppend(a: string, b: string)
    requires Terminated(a) && Terminated(b)
    ensures Terminated(a + b)
  {
    if |b| > 0 {
      assert (a + b)[|a + b| - 1] == b[|b| - 1];
    }
  }

  /** `"".join(lines[k:])` is a suffix of the text. */
  lemma {:induction false} ConcatDropIsSuffix(ls: seq<string>, k: nat)
    requires k <= |ls|
    ensures exists p: string :: p + Concat(ls[k..]) == Concat(ls)
  {
    if k == 0 {
      assert "" + Concat(ls[0..]) == Concat(ls);
    } else {
      ConcatDropIsSuffix(ls[1..], k - 1);
      var p: string :| p + Concat(ls[1..][k - 1..]) == Concat(ls[1..]);
      assert ls[1..][k - 1..] == ls[k..];
      assert (ls[0] + p) + Concat(ls[k..]) == Concat(ls);
    }
  }

  /** Lines are non-empty, so a non-empty list of them joins to a non-empty text. */
  lemma ConcatNonEmpty(ls: seq<string>)
    requires |ls| > 0 && forall i :: 0 <= i < |ls| ==> |ls[i]| > 0
    ensures |Concat(ls)| > 0
  {
  }
  // ---------------------------------------------------------------------------
  // Texts built line by line

  /** The text whose lines are `ls`, each closed by `\n`. */
  function Unlines(ls: seq<string>): string {
    if |ls| == 0 then "" else ls[0] + "\n" + Unlines(ls[1..])
  }

  /** Each line with its closing `\n`. */
  function WithNewlines(ls: seq<string>): (r: seq<string>)
    ensures |r| == |ls|
    ensures forall i :: 0 <= i < |ls| ==> r[i] == ls[i] + "\n"
  {
    if |ls| == 0 then [] else [ls[0] + "\n"] + WithNewlines(ls[1..])
  }

  predicate AllNoLineBreak(ls: seq<string>) {
    forall i :: 0 <= i < |ls| ==> NoLineBreak(ls[i])
  }

  /** Lines without boundaries come back from `splitlines` one for one. */
  lemma {:induction false} SplitLinesUnlines(ls: seq<string>)
    requires AllNoLineBreak(ls)
    ensures SplitLines(Unlines(ls)) == WithNewlines(ls)
    ensures Terminated(Unlines(ls))
  {
    if |ls| > 0 {
      TextLine(ls[0]);
      SplitLinesUnlines(ls[1..]);
      assert Unlines(ls) == (ls[0] + "\n") + Unlines(ls[1..]);
      SplitLinesAppend(ls[0] + "\n", Unlines(ls[1..]));
      TerminatedAppend(ls[0] + "\n", Unlines(ls[1..]));
    }
  }

  lemma {:induction false} UnlinesAppend(a: seq<string>, b: seq<string>)
    ensures Unlines(a + b) == Unlines(a) + Unlines(b)
  {
    if |a| == 0 {
      assert a + b == b;
    } else {
      assert (a + b)[1..] == a[1..] + b;
      UnlinesAppend(a[1..], b);
    }
  }

  lemma {:induction false} ConcatWithNewlines(ls: seq<string>)
    ensures Concat(WithNewlines(ls)) == Unlines(ls)
  {
    if |ls| > 0 {
      ConcatWithNewlines(ls[1..]);
    }
  }

  /** A text built line by line ends in `\n` (or is empty). */
  lemma {:induction false} UnlinesTerminated(ls: seq<string>)
    ensures Terminated(Unlines(ls))
    ensures |ls| > 0 ==> |Unlines(ls)| > 0
  {
    if |ls| > 0 {
      UnlinesTerminated(ls[1..]);
      TerminatedAppend(ls[0] + "\n", Unlines(ls[1..]));
      assert Unlines(ls) == (ls[0] + "\n") + Unlines(ls[1..]);
    }
  }

  lemma NoLineBreakAppend(a: string, b: string)
    requires NoLineBreak(a) && NoLineBreak(b)
    ensures NoLineBreak(a + b)
  {
    assert forall i :: |a| <= i < |a + b| ==> (a + b)[i] == b[i - |a|];
  }

  // ---------------------------------------------------------------------------
  // Joining lines and splitting again

  /** A list of lines that joins into a text splitting back into the same list:
      each is one line, and each but the last ends in a boundary other than a
      lone `\r` (which a following `\n` would extend). */
  predicate WellSplit(ls: seq<string>) {
    forall i :: 0 <= i < |ls| ==> IsLine(ls[i]) && (i < |ls| - 1 ==> |ls[i]| > 0 && Terminated(ls[i]))
  }

  /** A line splits into itself. */
  lemma SplitLinesOfLine(l: string)
    requires IsLine(l)
    ensures SplitLines(l) == [l]
  {
    assert l[..LineLength(l)] == l;
    assert l[LineLength(l)..] == "";
  }

  /** `"".join(ls).splitlines(True) == ls` for a well-split list. */
  lemma {:induction false} SplitLinesConcat(ls: seq<string>)
    requires WellSplit(ls)
    ensures SplitLines(Concat(ls)) == ls
  {
    if |ls| > 0 {
      SplitLinesOfLine(ls[0]);
      if |ls| == 1 {
        assert Concat(ls) == ls[0] + "" == ls[0];
        assert ls == [ls[0]];
      } else {
        SplitLinesConcat(ls[1..]);
        SplitLinesAppend(ls[0], Concat(ls[1..]));
      }
    }
  }

  /** The lines of a text without `\r` form a well-split list. */
  lemma {:induction false} SplitLinesWellSplit(s: string)
    requires '\r' !in s
    ensures WellSplit(SplitLines(s))
    decreases |s|
  {
    if |s| > 0 {
      var n := LineLength(s);
      FirstLine(s);
      assert '\r' !in s[n..] by {
        assert forall i :: 0 <= i < |s[n..]| ==> s[n..][i] == s[n + i];
      }
      SplitLinesWellSplit(s[n..]);
      var ls := SplitLines(s);
      assert ls == [s[..n]] + SplitLines(s[n..]);
      if n < |s| {
        assert s[..n][n - 1] == s[n - 1];
      } else {
        assert SplitLines(s[n..]) == [];
      }
    }
  }
}
