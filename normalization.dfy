/** Normalisation of e-mail addresses and user handles: lower-case the string,
    then delete every whitespace character. Registration and login apply it
    before any comparison with stored records. */
module Normalization {

  /** The characters the .NET regular-expression class `\s` matches:
      tab, line feed, vertical tab, form feed, carriage return, U+0085, and
      every character of the Unicode separator categories Zs, Zl and Zp. */
  predicate IsWhitespace(c: char) {
    || c == '\t' || c == '\n' || c == '\U{000B}' || c == '\U{000C}' || c == '\r'
    || c == '\U{0085}'
    || c == ' ' || c == '\U{00A0}' || c == '\U{1680}'
    || ('\U{2000}' <= c <= '\U{200A}')
    || c == '\U{2028}' || c == '\U{2029}'
    || c == '\U{202F}' || c == '\U{205F}' || c == '\U{3000}'
  }

  predicate IsUpper(c: char) {
    'A' <= c <= 'Z'
  }

  /** A string that normalisation leaves alone: no whitespace, no upper case. */
  predicate IsNormal(s: string) {
    forall i :: 0 <= i < |s| ==> !IsWhitespace(s[i]) && !IsUpper(s[i])
  }

  /** Lower-case one character (the ASCII letters only). */
  function LowerChar(c: char): (r: char)
    ensures !IsUpper(r)
    ensures IsWhitespace(r) <==> IsWhitespace(c)
    ensures IsUpper(c) ==> r as int == c as int + 32
    ensures !IsUpper(c) ==> r == c
  {
    if IsUpper(c) then (c as int + 32) as char else c
  }

  /** `ToLower`, character by character. */
  function ToLower(s: string): (r: string)
    ensures |r| == |s|
    ensures forall i :: 0 <= i < |r| ==> !IsUpper(r[i]) && (IsWhitespace(r[i]) <==> IsWhitespace(s[i]))
    ensures forall i :: 0 <= i < |s| && !IsUpper(s[i]) ==> r[i] == s[i]
  {
    seq(|s|, i requires 0 <= i < |s| => LowerChar(s[i]))
  }

  /** `Regex.Replace(s, @"\s+", "")`: every run of whitespace is replaced by
      nothing, so every whitespace character goes and the rest keep their order. */
  function StripWhitespace(s: string): (r: string)
    ensures |r| <= |s|
    ensures forall i :: 0 <= i < |r| ==> !IsWhitespace(r[i])
    ensures (forall i :: 0 <= i < |s| ==> IsWhitespace(s[i])) ==> r == []
  {
    if s == [] then []
    else (if IsWhitespace(s[0]) then [] else [s[0]]) + StripWhitespace(s[1..])
  }

  /** The normalisation applied to e-mail addresses and user handles. */
  function Normalize(s: string): (r: string)
    ensures IsNormal(r)
  {
    StripWhitespaceKeepsCase(ToLower(s));
    StripWhitespace(ToLower(s))
  }

  /** What survives whitespace removal is no whitespace, and no upper case
      when there was none to begin with. */
  lemma {:induction false} StripWhitespaceKeepsCase(s: string)
    requires forall i :: 0 <= i < |s| ==> !IsUpper(s[i])
    ensures IsNormal(StripWhitespace(s))
  {
    if s != [] {
      StripWhitespaceKeepsCase(s[1..]);
    }
  }

  lemma ToLowerAppend(s: string, t: string)
    ensures ToLower(s + t) == ToLower(s) + ToLower(t)
  {
  }

  lemma {:induction false} StripWhitespaceAppend(s: string, t: string)
    ensures StripWhitespace(s + t) == StripWhitespace(s) + StripWhitespace(t)
  {
    if s == [] {
      assert s + t == t;
    } else {
      assert (s + t)[1..] == s[1..] + t;
      StripWhitespaceAppend(s[1..], t);
    }
  }

  /** Normalisation works character by character: a whitespace character
      disappears and any other character is lower-cased, in order. Together
      with `NormalizeChar` this determines `Normalize` on every string. */
  lemma NormalizeAppend(s: string, t: string)
    ensures Normalize(s + t) == Normalize(s) + Normalize(t)
  {
    ToLowerAppend(s, t);
    StripWhitespaceAppend(ToLower(s), ToLower(t));
  }

  lemma NormalizeChar(c: char)
    ensures Normalize([c]) == if IsWhitespace(c) then [] else [LowerChar(c)]
  {
    var l := LowerChar(c);
    assert ToLower([c]) == [l];
    assert [l][1..] == [];
    assert StripWhitespace([l]) == (if IsWhitespace(l) then [] else [l]) + StripWhitespace([]);
  }

  lemma {:induction false} StripWhitespaceKeeps(s: string)
    requires forall i :: 0 <= i < |s| ==> !IsWhitespace(s[i])
    ensures StripWhitespace(s) == s
  {
    if s != [] {
      StripWhitespaceKeeps(s[1..]);
    }
  }

  /** A string is its own normalisation exactly when it holds no whitespace
      and no upper-case letter. */
  lemma NormalizeFixpoint(s: string)
    ensures Normalize(s) == s <==> IsNormal(s)
  {
    if IsNormal(s) {
      assert ToLower(s) == s;
      StripWhitespaceKeeps(s);
    }
  }

  /** Normalising twice gives the same string as normalising once. */
  lemma NormalizeIdempotent(s: string)
    ensures Normalize(Normalize(s)) == Normalize(s)
  {
    NormalizeFixpoint(Normalize(s));
  }

  /** A whitespace character anywhere does not survive normalisation. */
  lemma NormalizeDropsWhitespace(s: string, c: char, t: string)
    requires IsWhitespace(c)
    ensures Normalize(s + [c] + t) == Normalize(s + t)
  {
    NormalizeAppend(s + [c], t);
    NormalizeAppend(s, [c]);
    NormalizeAppend(s, t);
    NormalizeChar(c);
  }

  /** On a string without whitespace, normalisation only lower-cases. */
  lemma NormalizeWithoutWhitespace(s: string)
    requires forall i :: 0 <= i < |s| ==> !IsWhitespace(s[i])
    ensures Normalize(s) == ToLower(s)
  {
    StripWhitespaceKeeps(ToLower(s));
  }
}
