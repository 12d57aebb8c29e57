/**
 * The two string operations the name checks rely on: JavaScript's
 * `String.prototype.trim` and `String.prototype.toLowerCase`.
 * Trimming follows the ECMAScript definition of white space and line
 * terminators; lower-casing covers the ASCII letters only.
 */
module Text {

  /** ECMAScript WhiteSpace and LineTerminator code points, the ones `trim` strips. */
  predicate IsWhiteSpace(c: char) {
    || c == '\t' || c == '\n' || c == '\U{000B}' || c == '\U{000C}' || c == '\r' || c == ' '
    || c == '\U{00A0}' || c == '\U{1680}' || ('\U{2000}' <= c <= '\U{200A}')
    || c == '\U{2028}' || c == '\U{2029}' || c == '\U{202F}' || c == '\U{205F}'
    || c == '\U{3000}' || c == '\U{FEFF}'
  }

  /** Every character of `s` is white space (true of the empty string). */
  predicate IsBlank(s: string) {
    forall i :: 0 <= i < |s| ==> IsWhiteSpace(s[i])
  }

  /** `s` with its leading white space removed: a suffix of `s` that does not start with white space. */
  function TrimStart(s: string): (r: string)
    ensures |r| <= |s| && r == s[|s| - |r|..]
    ensures r == [] || !IsWhiteSpace(r[0])
    ensures forall i :: 0 <= i < |s| - |r| ==> IsWhiteSpace(s[i])
    decreases |s|
  {
    if |s| > 0 && IsWhiteSpace(s[0]) then TrimStart(s[1..]) else s
  }

  /** `s` with its trailing white space removed: a prefix of `s` that does not end with white space. */
  function TrimEnd(s: string): (r: string)
    ensures |r| <= |s| && r == s[..|r|]
    ensures r == [] || !IsWhiteSpace(r[|r| - 1])
    ensures forall i :: |r| <= i < |s| ==> IsWhiteSpace(s[i])
    decreases |s|
  {
    if |s| > 0 && IsWhiteSpace(s[|s| - 1]) then TrimEnd(s[..|s| - 1]) else s
  }

  /** `nombre.trim()`: the empty string exactly for blank input, otherwise
      a string that neither starts nor ends with white space. */
  function Trim(s: string): (r: string)
    ensures r == [] <==> IsBlank(s)
    ensures r != [] ==> !IsWhiteSpace(r[0]) && !IsWhiteSpace(r[|r| - 1])
    ensures |r| <= |s|
  {
    var t := TrimStart(s);
    assert IsBlank(s) ==> t == [];
    TrimEnd(t)
  }

  /** What `trim` keeps is a middle part of `s`: all that is cut off before and after it is white space. */
  lemma TrimCutsEnds(s: string)
    ensures exists a, b :: 0 <= a <= b <= |s| && Trim(s) == s[a..b] && IsBlank(s[..a]) && IsBlank(s[b..])
  {
    var t := TrimStart(s);
    var r := TrimEnd(t);
    var a := |s| - |t|;
    var b := a + |r|;
    assert Trim(s) == s[a..b];
    assert IsBlank(s[..a]) by {
      forall i | 0 <= i < a ensures IsWhiteSpace(s[..a][i]) {
        assert s[..a][i] == s[i];
      }
    }
    assert IsBlank(s[b..]) by {
      forall i | 0 <= i < |s| - b ensures IsWhiteSpace(s[b..][i]) {
        assert s[b..][i] == t[|r| + i];
      }
    }
  }

  /** A string without white space at either end is its own trim. */
  lemma {:induction false} TrimTrimmed(s: string)
    requires s == [] || (!IsWhiteSpace(s[0]) && !IsWhiteSpace(s[|s| - 1]))
    ensures Trim(s) == s
  {
    assert TrimStart(s) == s;
  }

  /** Trimming twice is trimming once: a stored (trimmed) name is unchanged by `trim`. */
  lemma TrimIdempotent(s: string)
    ensures Trim(Trim(s)) == Trim(s)
  {
    TrimTrimmed(Trim(s));
  }

  /** `toLowerCase` on one character; letters outside ASCII are left as they are. */
  function LowerChar(c: char): char {
    if 'A' <= c <= 'Z' then (c as int + 32) as char else c
  }

  /** `toLowerCase`, character by character. */
  function Lower(s: string): (r: string)
    ensures |r| == |s|
    ensures forall i :: 0 <= i < |s| ==> r[i] == LowerChar(s[i])
  {
    if s == [] then [] else [LowerChar(s[0])] + Lower(s[1..])
  }

  /** Lower-casing never turns white space into a letter or back. */
  lemma LowerCharKeepsWhiteSpace(c: char)
    ensures IsWhiteSpace(LowerChar(c)) == IsWhiteSpace(c)
  {
  }

  /** Lower-casing is idempotent: a lower-cased name compares equal to itself lower-cased again. */
  lemma {:induction false} LowerIdempotent(s: string)
    ensures Lower(Lower(s)) == Lower(s)
  {
    if s != [] {
      LowerIdempotent(s[1..]);
      assert Lower(s)[1..] == Lower(s[1..]);
    }
  }

  lemma {:induction false} TrimStartLower(s: string)
    ensures TrimStart(Lower(s)) == Lower(TrimStart(s))
    decreases |s|
  {
    if |s| > 0 {
      LowerCharKeepsWhiteSpace(s[0]);
      assert Lower(s)[1..] == Lower(s[1..]);
      if IsWhiteSpace(s[0]) {
        TrimStartLower(s[1..]);
      }
    }
  }

  lemma {:induction false} TrimEndLower(s: string)
    ensures TrimEnd(Lower(s)) == Lower(TrimEnd(s))
    decreases |s|
  {
    if |s| > 0 {
      LowerCharKeepsWhiteSpace(s[|s| - 1]);
      var p := s[..|s| - 1];
      assert Lower(s)[..|s| - 1] == Lower(p);
      if IsWhiteSpace(s[|s| - 1]) {
        TrimEndLower(p);
      }
    }
  }

  /** `nombre.toLowerCase().trim()` equals `nombre.trim().toLowerCase()`: comparing the
      lower-cased, trimmed input is comparing the lower-cased stored (trimmed) name. */
  lemma TrimLowerCommute(s: string)
    ensures Trim(Lower(s)) == Lower(Trim(s))
  {
    TrimStartLower(s);
    TrimEndLower(TrimStart(s));
  }
}
