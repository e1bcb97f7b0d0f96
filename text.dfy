/** String primitives the note widget relies on: JavaScript's `String.prototype.trim`,
    `toLowerCase` (restricted to ASCII) and `includes`. */
module Text {

  /** The characters `trim` removes: ECMAScript WhiteSpace (TAB, VT, FF, ZWNBSP and every
      Unicode space separator, category Zs) and LineTerminator (LF, CR, LS, PS). */
  predicate IsSpace(c: char) {
    || c == '\t' || c == '\U{000B}' || c == '\U{000C}' || c == '\U{FEFF}'
    || c == ' ' || c == '\U{00A0}' || c == '\U{1680}' || '\U{2000}' <= c <= '\U{200A}'
    || c == '\U{202F}' || c == '\U{205F}' || c == '\U{3000}'
    || c == '\n' || c == '\r' || c == '\U{2028}' || c == '\U{2029}'
  }

  /** Among the ASCII characters, `trim` removes exactly tab, line feed, vertical tab, form
      feed, carriage return and space. */
  lemma AsciiSpaces(c: char)
    requires c < '\U{0080}'
    ensures IsSpace(c) <==> c == '\t' || c == '\n' || c == '\U{000B}' || c == '\U{000C}' || c == '\r' || c == ' '
  {
  }

  predicate AllSpace(s: string) {
    forall k :: 0 <= k < |s| ==> IsSpace(s[k])
  }

  /** Scanning forward from `i`, the first position that does not hold whitespace (or `|s|`). */
  function SkipForward(s: string, i: nat): (j: nat)
    requires i <= |s|
    ensures i <= j <= |s|
    ensures forall k :: i <= k < j ==> IsSpace(s[k])
    ensures j == |s| || !IsSpace(s[j])
    decreases |s| - i
  {
    if i < |s| && IsSpace(s[i]) then SkipForward(s, i + 1) else i
  }

  /** Scanning backward from `j`, but not below `lo`, the end of the last character that is
      not whitespace (or `lo`). */
  function SkipBackward(s: string, lo: nat, j: nat): (i: nat)
    requires lo <= j <= |s|
    ensures lo <= i <= j
    ensures forall k :: i <= k < j ==> IsSpace(s[k])
    ensures i == lo || !IsSpace(s[i - 1])
    decreases j
  {
    if lo < j && IsSpace(s[j - 1]) then SkipBackward(s, lo, j - 1) else j
  }

  /** `r` is `s` with whitespace, and only whitespace, removed from both ends. */
  ghost predicate StripsSpace(s: string, r: string) {
    exists i, j :: 0 <= i <= j <= |s| && s[i..j] == r && AllSpace(s[..i]) && AllSpace(s[j..])
  }

  /** `s.trim()`: `s` without its surrounding whitespace. It is empty exactly when `s` is
      whitespace only, and otherwise neither starts nor ends with whitespace. */
  function Trim(s: string): (r: string)
    ensures StripsSpace(s, r)
    ensures Trimmed(r)
    ensures r == [] <==> AllSpace(s)
  {
    var i := SkipForward(s, 0);
    var j := SkipBackward(s, i, |s|);
    assert AllSpace(s[..i]) && AllSpace(s[j..]);
    assert i == j ==> AllSpace(s) by {
      if i == j {
        assert s == s[..i] + s[j..];
      }
    }
    s[i..j]
  }

  /** A string with no surrounding whitespace. */
  predicate Trimmed(s: string) {
    s == [] || (!IsSpace(s[0]) && !IsSpace(s[|s| - 1]))
  }

  /** The strings `Trim` leaves alone are exactly the trimmed ones. */
  lemma {:induction false} TrimFixedPoints(s: string)
    ensures Trim(s) == s <==> Trimmed(s)
  {
    if Trimmed(s) {
      assert SkipForward(s, 0) == 0;
      assert SkipBackward(s, 0, |s|) == |s|;
      assert s[0..|s|] == s;
    }
  }

  /** Trimming twice is trimming once: a trimmed string has nothing left to trim. */
  lemma {:induction false} TrimIdempotent(s: string)
    ensures Trim(Trim(s)) == Trim(s)
  {
    TrimFixedPoints(Trim(s));
  }

  /** `toLowerCase` on one character, for the ASCII letters. */
  function LowerChar(c: char): (d: char)
    ensures 'A' <= c <= 'Z' ==> 'a' <= d <= 'z' && d as int - c as int == 32
    ensures !('A' <= c <= 'Z') ==> d == c
  {
    if 'A' <= c <= 'Z' then (c as int + 32) as char else c
  }

  /** `s.toLowerCase()`, character by character. */
  function Lower(s: string): (r: string)
    ensures |r| == |s|
    ensures forall k :: 0 <= k < |s| ==> r[k] == LowerChar(s[k])
  {
    seq(|s|, k requires 0 <= k < |s| => LowerChar(s[k]))
  }

  /** Lower-casing twice is lower-casing once. */
  lemma LowerIdempotent(s: string)
    ensures Lower(Lower(s)) == Lower(s)
  {
    assert forall k :: 0 <= k < |s| ==> Lower(Lower(s))[k] == Lower(s)[k];
  }

  /** Lower-casing commutes with taking a slice. */
  lemma LowerSlice(s: string, i: nat, j: nat)
    requires i <= j <= |s|
    ensures Lower(s)[i..j] == Lower(s[i..j])
  {
  }

  /** The reference meaning of "`sub` occurs in `s`": some contiguous slice of `s` equals `sub`. */
  ghost predicate IsInfix(sub: string, s: string) {
    exists i, j :: 0 <= i <= j <= |s| && s[i..j] == sub
  }

  /** `s.includes(sub)`, by trying each start position in turn. */
  function Includes(s: string, sub: string): (r: bool)
    ensures r <==> IsInfix(sub, s)
    decreases |s|
  {
    if |sub| > |s| then false
    else if s[..|sub|] == sub then
      assert s[0..|sub|] == sub;
      true
    else
      var r := Includes(s[1..], sub);
      assert r ==> IsInfix(sub, s) by {
        if r {
          var i, j :| 0 <= i <= j <= |s[1..]| && s[1..][i..j] == sub;
          assert s[i + 1..j + 1] == sub;
        }
      }
      assert IsInfix(sub, s) ==> r by {
        if IsInfix(sub, s) {
          var i, j :| 0 <= i <= j <= |s| && s[i..j] == sub;
          if i == 0 {
            assert false;
          }
          assert s[1..][i - 1..j - 1] == sub;
        }
      }
      r
  }

  /** The empty string occurs in every string. */
  lemma {:induction false} IncludesEmpty(s: string)
    ensures Includes(s, "")
  {
    assert s[0..0] == "";
  }
}
