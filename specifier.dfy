/**
 * The import marker of src/plugin.ts: the resolve hook's filter
 * `/^ajv:.+\.json$/i` and the strip `replace(/^ajv:/i, "")`.
 *
 * Both are read as ECMAScript regular expressions. With the `i` flag and
 * without `u`, a character matches a pattern letter when both have the same
 * upper-case form and no non-ASCII character is folded onto an ASCII one, so
 * for the letters of `ajv:` and `.json` only the ASCII case variants match.
 * `.` matches every character except the four line terminators.
 */
module Specifier {

  const Prefix: string := "ajv:"
  const Suffix: string := ".json"

  /** ASCII lower case; every other character is its own folding. */
  function Lower(c: char): char
  {
    if 'A' <= c <= 'Z' then (c as int + 32) as char else c
  }

  predicate SameIgnoringCase(a: string, b: string)
  {
    |a| == |b| && forall i :: 0 <= i < |a| ==> Lower(a[i]) == Lower(b[i])
  }

  predicate StartsWithIgnoringCase(s: string, p: string)
  {
    |p| <= |s| && SameIgnoringCase(s[..|p|], p)
  }

  predicate EndsWithIgnoringCase(s: string, p: string)
  {
    |p| <= |s| && SameIgnoringCase(s[|s| - |p|..], p)
  }

  /** The characters `.` does not match. */
  predicate IsLineTerminator(c: char)
  {
    c == '\n' || c == '\r' || c == '\U{2028}' || c == '\U{2029}'
  }

  /** What `.+` accepts: one or more characters, none a line terminator. */
  predicate IsDotPlus(m: string)
  {
    |m| >= 1 && forall i :: 0 <= i < |m| ==> !IsLineTerminator(m[i])
  }

  /**
   * The filter `/^ajv:.+\.json$/i`, by positions: the marker in the first
   * four characters, `.json` in the last five, and at least one character,
   * none a line terminator, in between.
   */
  predicate Intercepted(s: string): (b: bool)
    // the positional reading agrees with the concatenation reading of the pattern
    ensures b <==> SplitsAsPattern(s)
  {
    && |s| >= |Prefix| + 1 + |Suffix|
    && StartsWithIgnoringCase(s, Prefix)
    && EndsWithIgnoringCase(s, Suffix)
    && IsDotPlus(s[|Prefix|..|s| - |Suffix|])
  }

  /** The same filter read as a concatenation `ajv:` `.+` `\.json` between the anchors. */
  ghost predicate SplitsAsPattern(s: string)
  {
    exists i, j {:trigger s[i..j]} :: 0 <= i <= j <= |s|
      && SameIgnoringCase(s[..i], Prefix) && IsDotPlus(s[i..j]) && SameIgnoringCase(s[j..], Suffix)
  }

  /**
   * `rawPath.replace(/^ajv:/i, "")`: one non-global replacement anchored at
   * the start, so at most the first four characters go.
   */
  function Strip(s: string): (r: string)
    ensures |r| == |s| || |r| == |s| - |Prefix|
    ensures r == s[|s| - |r|..]
    ensures |r| < |s| <==> StartsWithIgnoringCase(s, Prefix)
  {
    if StartsWithIgnoringCase(s, Prefix) then s[|Prefix|..] else s
  }

  /** What the resolve hook hands on for an intercepted specifier: the rest after the marker, still a `.json` path. */
  lemma StripIntercepted(s: string)
    requires Intercepted(s)
    ensures Strip(s) == s[|Prefix|..]
    ensures s == s[..|Prefix|] + Strip(s)
    ensures |Strip(s)| >= 1 + |Suffix|
    ensures EndsWithIgnoringCase(Strip(s), Suffix)
    ensures IsDotPlus(Strip(s)[..|Strip(s)| - |Suffix|])
  {
    var r := Strip(s);
    assert r[|r| - |Suffix|..] == s[|s| - |Suffix|..];
    assert r[..|r| - |Suffix|] == s[|Prefix|..|s| - |Suffix|];
  }

  /** Specifiers without the marker pass through the strip unchanged. */
  lemma StripWithoutMarker(s: string)
    requires !StartsWithIgnoringCase(s, Prefix)
    ensures Strip(s) == s
  {
  }

  /** The marker is matched without regard to ASCII case, at both ends. */
  lemma MarkerCaseInsensitive()
    ensures Intercepted("AJV:schemas/User.JSON")
    ensures Strip("AJV:schemas/User.JSON") == "schemas/User.JSON"
    ensures Intercepted("ajv:./testSchema.json")
  {
    var s := "AJV:schemas/User.JSON";
    assert Lower('A') == 'a' && Lower('J') == 'j' && Lower('V') == 'v';
    assert Lower('S') == 's' && Lower('O') == 'o' && Lower('N') == 'n';
    assert StartsWithIgnoringCase(s, Prefix) && EndsWithIgnoringCase(s, Suffix);
    assert IsDotPlus(s[|Prefix|..|s| - |Suffix|]);
  }

  /** The suffix form `./testSchema.json?ajv` imported by the test fixture is not intercepted. */
  lemma SuffixMarkerNotIntercepted()
    ensures !Intercepted("./testSchema.json?ajv")
  {
    var s := "./testSchema.json?ajv";
    assert Lower(s[..|Prefix|][0]) != Lower(Prefix[0]);
  }

  /** A line break between the marker and `.json` defeats the filter. */
  lemma LineBreakNotIntercepted()
    ensures !Intercepted("ajv:a\nb.json")
  {
    var s := "ajv:a\nb.json";
    assert s[|Prefix|..|s| - |Suffix|][1] == '\n';
  }
}
