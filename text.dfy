/**
 * JavaScript's `String.prototype.trim`, on which every "is this input blank?"
 * guard of the task item relies. Strings are sequences of Unicode scalar
 * values; JavaScript's UTF-16 code units are not modelled.
 */
module Text {

  /** The characters `trim` removes: ECMAScript WhiteSpace and LineTerminator. */
  predicate IsWhitespace(c: char)
  {
    c == '\t' || c == '\n' || c == '\U{000B}' || c == '\U{000C}' || c == '\r' || c == ' ' ||
    c == '\U{00A0}' || c == '\U{1680}' || ('\U{2000}' <= c <= '\U{200A}') ||
    c == '\U{2028}' || c == '\U{2029}' || c == '\U{202F}' || c == '\U{205F}' ||
    c == '\U{3000}' || c == '\U{FEFF}'
  }

  /** Every character of `s` is whitespace (this includes the empty string). */
  predicate IsBlank(s: string)
  {
    forall i :: 0 <= i < |s| ==> IsWhitespace(s[i])
  }

  /** Neither end of `s` is whitespace. */
  predicate IsTrimmed(s: string)
  {
    s == [] || (!IsWhitespace(s[0]) && !IsWhitespace(s[|s| - 1]))
  }

  /** `s` without its leading whitespace: a suffix of `s` that starts with a non-whitespace character. */
  function TrimStart(s: string): (r: string)
    ensures |r| <= |s| && r == s[|s| - |r|..]
    ensures r == [] || !IsWhitespace(r[0])
    ensures IsBlank(s[..|s| - |r|])
  {
    if s != [] && IsWhitespace(s[0]) then
      BlankCons(s, TrimStart(s[1..]));
      TrimStart(s[1..])
    else s
  }

  /** One step of `TrimStart`: a leading whitespace character joins the blank prefix it drops. */
  lemma BlankCons(s: string, r: string)
    requires s != [] && IsWhitespace(s[0])
    requires |r| <= |s[1..]| && r == s[1..][|s[1..]| - |r|..] && IsBlank(s[1..][..|s[1..]| - |r|])
    ensures r == s[|s| - |r|..] && IsBlank(s[..|s| - |r|])
  {
    var n := |s| - |r|;
    forall k | 0 <= k < n ensures IsWhitespace(s[..n][k]) {
      if k > 0 {
        assert s[..n][k] == s[1..][..n - 1][k - 1];
      }
    }
  }

  /** `s` without its trailing whitespace: a prefix of `s` that ends with a non-whitespace character. */
  function TrimEnd(s: string): (r: string)
    ensures |r| <= |s| && r == s[..|r|]
    ensures r == [] || !IsWhitespace(r[|r| - 1])
    ensures forall i :: |r| <= i < |s| ==> IsWhitespace(s[i])
  {
    if s != [] && IsWhitespace(s[|s| - 1]) then TrimEnd(s[..|s| - 1]) else s
  }

  /** `r` is the stretch of `s` that starts at `i`, and what lies before and after it in `s` is blank. */
  predicate CutsBlankEnds(s: string, i: nat, r: string)
  {
    i + |r| <= |s| && r == s[i..i + |r|] && IsBlank(s[..i]) && IsBlank(s[i + |r|..])
  }

  /**
   * `s.trim()`: the middle of `s` left after dropping its whitespace at both
   * ends; empty exactly when `s` is blank, and otherwise starting and ending
   * with a non-whitespace character.
   */
  function Trim(s: string): (r: string)
    ensures CutsBlankEnds(s, |s| - |TrimStart(s)|, r)
    ensures IsTrimmed(r)
    ensures r == [] <==> IsBlank(s)
  {
    TrimCutsBlankEnds(s);
    TrimEndsTrimmed(s);
    TrimEnd(TrimStart(s))
  }

  /**
   * Dropping a blank head `s[..i]` and then a blank tail from what is left
   * keeps a stretch of `s` with blank ends cut off.
   */
  lemma CutsBlankEndsIntro(s: string, t: string, r: string, i: nat)
    requires i <= |s| && t == s[i..] && IsBlank(s[..i])
    requires |r| <= |t| && r == t[..|r|] && IsBlank(t[|r|..])
    ensures CutsBlankEnds(s, i, r)
  {
    assert t[|r|..] == s[i + |r|..];
  }

  /** What `TrimStart` and then `TrimEnd` keep is a slice of the input, and what they drop is blank. */
  lemma TrimCutsBlankEnds(s: string)
    ensures CutsBlankEnds(s, |s| - |TrimStart(s)|, TrimEnd(TrimStart(s)))
  {
    var t := TrimStart(s);
    TrimEndTailBlank(t);
    CutsBlankEndsIntro(s, t, TrimEnd(t), |s| - |t|);
  }

  /** What `TrimEnd` cuts off is blank. */
  lemma TrimEndTailBlank(t: string)
    ensures IsBlank(t[|TrimEnd(t)|..])
  {
    var tail := t[|TrimEnd(t)|..];
    forall k | 0 <= k < |tail| ensures IsWhitespace(tail[k]) {
      assert tail[k] == t[|TrimEnd(t)| + k];
    }
  }

  /** Both ends of the trimmed string are non-whitespace, and it is empty exactly for a blank input. */
  lemma TrimEndsTrimmed(s: string)
    ensures IsTrimmed(TrimEnd(TrimStart(s)))
    ensures TrimEnd(TrimStart(s)) == [] <==> IsBlank(s)
  {
    var t := TrimStart(s);
    TrimStartEmpty(s);
    TrimEndEmpty(t);
    var r := TrimEnd(t);
    assert r != [] ==> r[0] == t[0];
  }

  /** `TrimStart` leaves nothing exactly when the whole string is blank. */
  lemma TrimStartEmpty(s: string)
    ensures TrimStart(s) == [] <==> IsBlank(s)
  {
    if TrimStart(s) == [] {
      assert s[..|s|] == s;
    }
  }

  /** `TrimEnd` empties a string that starts with a non-whitespace character only when it is already empty. */
  lemma TrimEndEmpty(t: string)
    requires t == [] || !IsWhitespace(t[0])
    ensures TrimEnd(t) == [] <==> t == []
  {
  }

  /** Trimming a string with no whitespace at either end changes nothing. */
  lemma TrimOfTrimmed(s: string)
    requires IsTrimmed(s)
    ensures Trim(s) == s
  {
  }

  /** Trimming twice is trimming once. */
  lemma TrimIdempotent(s: string)
    ensures Trim(Trim(s)) == Trim(s)
  {
    TrimOfTrimmed(Trim(s));
  }

  /** A blank prefix is exactly what `TrimStart` removes first. */
  lemma {:induction false} TrimStartLeadingBlank(w: string, s: string)
    requires IsBlank(w)
    ensures TrimStart(w + s) == TrimStart(s)
  {
    if w != [] {
      assert (w + s)[0] == w[0];
      assert (w + s)[1..] == w[1..] + s;
      TrimStartLeadingBlank(w[1..], s);
    } else {
      assert w + s == s;
    }
  }

  /** Any blank prefix is removed again by `trim`. */
  lemma TrimLeadingBlank(w: string, s: string)
    requires IsBlank(w)
    ensures Trim(w + s) == Trim(s)
  {
    TrimStartLeadingBlank(w, s);
  }

  /** In particular, one whitespace character added at the front is removed again. */
  lemma TrimLeadingSpace(c: char, s: string)
    requires IsWhitespace(c)
    ensures Trim([c] + s) == Trim(s)
  {
    TrimLeadingBlank([c], s);
  }
}
