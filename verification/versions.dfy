/** A version number `major.minor.patch[-pre]` with a total order.

    Conan's own version classes are outside this model; this module stands in
    for them with a small grammar: one to three dot-separated decimal
    components (missing ones are 0), optionally followed by `-` and a non-empty
    prerelease tag. A release is greater than every prerelease of the same
    major.minor.patch, and prerelease tags compare character by character.
 */
module Versions {
  import opened Wrappers
  import opened Strings

  datatype Version = Version(major: nat, minor: nat, patch: nat, pre: string)

  /** `Version(f"{v.major}.{v.minor}.{v.patch}")`: the version without its prerelease. */
  function Core(v: Version): (r: Version)
    ensures r.pre == "" && r.major == v.major && r.minor == v.minor && r.patch == v.patch
  {
    Version(v.major, v.minor, v.patch, "")
  }

  /** `f"{v.major}.{v.minor}.{v.patch}"` */
  function CoreString(v: Version): string {
    NatToString(v.major) + "." + NatToString(v.minor) + "." + NatToString(v.patch)
  }

  /** `str(v)` */
  function ToString(v: Version): string {
    CoreString(v) + (if v.pre == "" then "" else "-" + v.pre)
  }

  /** `Version(s)`: None where Conan would raise for an unparseable version. */
  function Parse(s: string): (r: Option<Version>)
    ensures r.Some? ==> |s| > 0
  {
    var dashed := Split(s, "-");
    var pre := Join(dashed[1..], "-");
    if |dashed| > 1 && pre == "" then None
    else
      var nums := Split(dashed[0], ".");
      if |nums| > 3 then None
      else
        var major := ParseNat(nums[0]);
        var minor := if |nums| > 1 then ParseNat(nums[1]) else Some(0);
        var patch := if |nums| > 2 then ParseNat(nums[2]) else Some(0);
        if major.None? || minor.None? || patch.None? then None
        else
          assert |nums[0]| > 0 && |dashed[0]| > 0 by {
            JoinSplit(dashed[0], ".");
            JoinSplit(s, "-");
          }
          Some(Version(major.value, minor.value, patch.value, pre))
  }

  /** `conans.tools.Version(s)`, which raises `ConanException` for a text
      it cannot parse. */
  function ToolsVersion(s: string): (r: Result<Version>)
    ensures r.Ok? <==> Parse(s).Some?
    ensures r.Ok? ==> r.value == Parse(s).value
    ensures r.Err? ==> r.error == ConanError("Invalid version '" + s + "'")
  {
    match Parse(s)
    case Some(v) => Ok(v)
    case None => Err(ConanError("Invalid version '" + s + "'"))
  }

  /** Lexicographic order on strings by code point. */
  predicate StrLe(a: string, b: string) {
    |a| == 0 || (|b| > 0 && (a[0] < b[0] || (a[0] == b[0] && StrLe(a[1..], b[1..]))))
  }

  /** A release (empty tag) is above every prerelease. */
  predicate PreLe(p: string, q: string) {
    q == "" || (p != "" && StrLe(p, q))
  }

  /** `a <= b` */
  predicate Le(a: Version, b: Version) {
    if a.major != b.major then a.major < b.major
    else if a.minor != b.minor then a.minor < b.minor
    else if a.patch != b.patch then a.patch < b.patch
    else PreLe(a.pre, b.pre)
  }

  /** `a < b` */
  predicate Lt(a: Version, b: Version) {
    Le(a, b) && !Le(b, a)
  }

  // ---------------------------------------------------------------------------
  // The order is total

  lemma {:induction false} StrLeTotal(a: string, b: string)
    ensures StrLe(a, b) || StrLe(b, a)
  {
    if |a| > 0 && |b| > 0 && a[0] == b[0] {
      StrLeTotal(a[1..], b[1..]);
    }
  }

  lemma {:induction false} StrLeAntisymmetric(a: string, b: string)
    requires StrLe(a, b) && StrLe(b, a)
    ensures a == b
  {
    if |a| > 0 && |b| > 0 {
      StrLeAntisymmetric(a[1..], b[1..]);
      assert a == [a[0]] + a[1..] && b == [b[0]] + b[1..];
    }
  }

  lemma {:induction false} StrLeTransitive(a: string, b: string, c: string)
    requires StrLe(a, b) && StrLe(b, c)
    ensures StrLe(a, c)
  {
    if |a| > 0 && |b| > 0 && |c| > 0 && a[0] == b[0] && b[0] == c[0] {
      StrLeTransitive(a[1..], b[1..], c[1..]);
    }
  }

  lemma LeReflexive(a: Version)
    ensures Le(a, a)
  {
    StrLeTotal(a.pre, a.pre);
  }

  lemma LeTotal(a: Version, b: Version)
    ensures Le(a, b) || Le(b, a)
  {
    StrLeTotal(a.pre, b.pre);
  }

  lemma LeAntisymmetric(a: Version, b: Version)
    requires Le(a, b) && Le(b, a)
    ensures a == b
  {
    if a.pre != "" && b.pre != "" {
      StrLeAntisymmetric(a.pre, b.pre);
    }
  }

  lemma LeTransitive(a: Version, b: Version, c: Version)
    requires Le(a, b) && Le(b, c)
    ensures Le(a, c)
  {
    if a.major == b.major == c.major && a.minor == b.minor == c.minor && a.patch == b.patch == c.patch
       && a.pre != "" && b.pre != "" && c.pre != "" {
      StrLeTransitive(a.pre, b.pre, c.pre);
    }
  }

  /** `<` is `<=` without equality. */
  lemma LtIsStrict(a: Version, b: Version)
    ensures Lt(a, b) <==> Le(a, b) && a != b
  {
    if Le(a, b) && Le(b, a) {
      LeAntisymmetric(a, b);
    }
    if a == b {
      LeReflexive(a);
    }
  }

  lemma LeLtTransitive(a: Version, b: Version, c: Version)
    requires Le(a, b) && Lt(b, c)
    ensures Lt(a, c)
  {
    LeTransitive(a, b, c);
    if Le(c, a) {
      LeTransitive(c, a, b);
    }
  }

  /** `<` is the negation of `>=`. */
  lemma NotLtIsGe(a: Version, b: Version)
    ensures !Lt(a, b) <==> Le(b, a)
  {
    LeTotal(a, b);
  }

  /** Dropping the prerelease never lowers a version. */
  lemma CoreIsUpperBound(v: Version)
    ensures Le(v, Core(v))
  {
  }

  // ---------------------------------------------------------------------------
  // Printing and parsing agree

  lemma NoSeparatorInDigits(n: nat, c: char)
    requires !IsDigit(c)
    ensures c !in NatToString(n)
  {
  }

  /** `Version(str(v)) == v` */
  lemma ParseToString(v: Version)
    ensures Parse(ToString(v)) == Some(v)
  {
    var a, b, c := NatToString(v.major), NatToString(v.minor), NatToString(v.patch);
    var core := CoreString(v);
    NoSeparatorInDigits(v.major, '.');
    NoSeparatorInDigits(v.minor, '.');
    NoSeparatorInDigits(v.patch, '.');
    NoSeparatorInDigits(v.major, '-');
    NoSeparatorInDigits(v.minor, '-');
    NoSeparatorInDigits(v.patch, '-');
    assert core == a + ['.'] + (b + ['.'] + c);
    SplitAtFirst(a, '.', b + ['.'] + c);
    SplitAtFirst(b, '.', c);
    SplitWithout(c, '.');
    assert Split(core, ".") == [a, b, c];
    assert '-' !in core;
    if v.pre == "" {
      SplitWithout(core, '-');
      assert ToString(v) == core;
    } else {
      assert ToString(v) == core + ['-'] + v.pre;
      SplitAtFirst(core, '-', v.pre);
      JoinSplit(v.pre, "-");
    }
    ParseNatToString(v.major);
    ParseNatToString(v.minor);
    ParseNatToString(v.patch);
  }
}
