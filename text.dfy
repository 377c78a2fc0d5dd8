/**
  String primitives the pages rely on: `toLowerCase` (case-insensitive city
  comparison), `includes` (error-message classification) and `trim`
  (search-form validation).
 */
module Text {

  /** `toLowerCase` restricted to ASCII: 'A'..'Z' become 'a'..'z', every
      other character is kept. */
  function LowerChar(c: char): char
  {
    if 'A' <= c <= 'Z' then (c as int + 32) as char else c
  }

  /** `s.toLowerCase()`, character by character. */
  function Lower(s: string): (r: string)
    ensures |r| == |s|
    ensures forall i :: 0 <= i < |s| ==> r[i] == LowerChar(s[i])
  {
    if s == [] then [] else [LowerChar(s[0])] + Lower(s[1..])
  }

  /** Two city names denote the same city when they agree after lowering. */
  predicate SameCity(a: string, b: string)
  {
    Lower(a) == Lower(b)
  }

  /** A name differing from another only in the case of ASCII letters is the same city. */
  lemma SameCityIgnoresCase(a: string, b: string)
    requires |a| == |b|
    requires forall i :: 0 <= i < |a| ==> LowerChar(a[i]) == LowerChar(b[i])
    ensures SameCity(a, b)
  {
    assert Lower(a) == Lower(b);
  }

  /** `s.includes(sub)`: `sub` occurs in `s` at some position. */
  predicate Contains(s: string, sub: string)
  {
    exists i :: 0 <= i <= |s| && sub <= s[i..]
  }

  /** A string occurs in any string that embeds it. */
  lemma {:induction false} ContainsEmbedded(prefix: string, sub: string, suffix: string)
    ensures Contains(prefix + sub + suffix, sub)
  {
    var s := prefix + sub + suffix;
    assert s[|prefix|..] == sub + suffix;
  }

  /** A string without the character `c` contains no string that starts with `c`. */
  lemma NoCharNoOccurrence(s: string, sub: string)
    requires sub != [] && sub[0] !in s
    ensures !Contains(s, sub)
  {
  }

  /** The characters `String.prototype.trim` removes: the ECMAScript
      WhiteSpace and LineTerminator code points. */
  predicate IsWhitespace(c: char)
  {
    var n := c as int;
    n == 0x09 || n == 0x0A || n == 0x0B || n == 0x0C || n == 0x0D
    || n == 0x20 || n == 0xA0 || n == 0x1680
    || (0x2000 <= n <= 0x200A)
    || n == 0x2028 || n == 0x2029 || n == 0x202F || n == 0x205F
    || n == 0x3000 || n == 0xFEFF
  }

  /** A string consisting of whitespace only (the empty string included). */
  predicate IsBlank(s: string)
  {
    forall i :: 0 <= i < |s| ==> IsWhitespace(s[i])
  }

  /** Leading whitespace removed. */
  function TrimStart(s: string): (r: string)
    ensures |r| <= |s|
    ensures r == s[|s| - |r|..]
    ensures IsBlank(s[..|s| - |r|])
    ensures r == [] || !IsWhitespace(r[0])
  {
    if s != [] && IsWhitespace(s[0]) then
      var r := TrimStart(s[1..]);
      assert IsBlank(s[..|s| - |r|]) by {
        forall j | 0 <= j < |s| - |r| ensures IsWhitespace(s[j]) {
          if j > 0 {
            assert s[j] == s[1..][..|s| - 1 - |r|][j - 1];
          }
        }
      }
      r
    else
      s
  }

  /** Trailing whitespace removed. */
  function TrimEnd(s: string): (r: string)
    ensures |r| <= |s|
    ensures r == s[..|r|]
    ensures IsBlank(s[|r|..])
    ensures r == [] || !IsWhitespace(r[|r| - 1])
  {
    if s != [] && IsWhitespace(s[|s| - 1]) then
      var r := TrimEnd(s[..|s| - 1]);
      assert IsBlank(s[|r|..]) by {
        forall j | |r| <= j < |s| ensures IsWhitespace(s[j]) {
          if j < |s| - 1 {
            assert s[j] == s[..|s| - 1][|r|..][j - |r|];
          }
        }
      }
      r
    else
      s
  }

  /** `s.trim()`: the slice of `s` between its leading and trailing
      whitespace; it is empty exactly when `s` is blank. */
  function Trim(s: string): (r: string)
    ensures r == [] <==> IsBlank(s)
    ensures r == [] || (!IsWhitespace(r[0]) && !IsWhitespace(r[|r| - 1]))
    ensures Contains(s, r)
    ensures exists a, b :: 0 <= a <= b <= |s| && r == s[a..b] && IsBlank(s[..a]) && IsBlank(s[b..])
  {
    TrimSlice(s);
    StripsBlankEnds(s, TrimStart(s), TrimEnd(TrimStart(s)));
    TrimEnd(TrimStart(s))
  }

  /** Removing both ends leaves a slice of the input, empty only for blank input. */
  lemma TrimSlice(s: string)
    ensures var r := TrimEnd(TrimStart(s));
      && (r == [] <==> IsBlank(s))
      && Contains(s, r)
  {
    var t := TrimStart(s);
    var r := TrimEnd(t);
    if t == [] {
      assert s == s[..|s|];
    } else {
      assert s[|s| - |t|] == t[0];
    }
    assert r <= s[|s| - |t|..];
  }

  /** Dropping a blank prefix of `s` and then a blank suffix of what remains
      leaves a slice of `s` with a blank prefix before it and a blank suffix
      after it. */
  lemma StripsBlankEnds(s: string, t: string, r: string)
    requires |t| <= |s| && t == s[|s| - |t|..] && IsBlank(s[..|s| - |t|])
    requires |r| <= |t| && r == t[..|r|] && IsBlank(t[|r|..])
    ensures exists a, b :: 0 <= a <= b <= |s| && r == s[a..b] && IsBlank(s[..a]) && IsBlank(s[b..])
  {
    var a := |s| - |t|;
    var b := a + |r|;
    assert r == s[a..b];
    assert s[b..] == t[|r|..];
  }
}
