/** The string primitives the views call: toLowerCase/toUpperCase (on ASCII
    letters), includes, trim, replace(/\s+/g, '_') and replace(char, char)
    for its first occurrence. */
module Strings {
  import opened Seqs

  /** The characters JavaScript's `\s` and `trim` treat as white space
      (WhiteSpace and LineTerminator of ECMA-262). */
  predicate IsSpace(c: char)
  {
    c == ' ' || c == '\t' || c == '\n' || c == '\r' || c == '\U{000B}' || c == '\U{000C}' ||
    c == '\U{00A0}' || c == '\U{1680}' || ('\U{2000}' <= c <= '\U{200A}') ||
    c == '\U{2028}' || c == '\U{2029}' || c == '\U{202F}' || c == '\U{205F}' ||
    c == '\U{3000}' || c == '\U{FEFF}'
  }

  predicate NoSpace(s: string)
  {
    forall i :: 0 <= i < |s| ==> !IsSpace(s[i])
  }

  function LowerChar(c: char): char
  {
    if 'A' <= c <= 'Z' then (c as int + 32) as char else c
  }

  function UpperChar(c: char): char
  {
    if 'a' <= c <= 'z' then (c as int - 32) as char else c
  }

  /** String.prototype.toLowerCase, restricted to ASCII letters. */
  function ToLower(s: string): (r: string)
    ensures |r| == |s|
    ensures forall i :: 0 <= i < |s| ==> r[i] == LowerChar(s[i])
  {
    seq(|s|, i requires 0 <= i < |s| => LowerChar(s[i]))
  }

  /** Lower-casing never turns a character into white space or back. */
  lemma ToLowerKeepsSpaces(s: string)
    ensures NoSpace(ToLower(s)) <==> NoSpace(s)
  {
    assert forall c: char :: IsSpace(LowerChar(c)) <==> IsSpace(c);
  }

  /** String.prototype.includes: `t` occurs in `s` as a contiguous block. */
  predicate Contains(s: string, t: string)
  {
    exists i | 0 <= i <= |s| - |t| :: OccursAt(s, t, i)
  }

  predicate OccursAt(s: string, t: string, i: int)
  {
    0 <= i && i + |t| <= |s| && s[i..i + |t|] == t
  }

  /** Every string includes the empty string. */
  lemma ContainsEmpty(s: string)
    ensures Contains(s, "")
  {
    assert OccursAt(s, "", 0);
  }

  /** `s.toLowerCase().includes(term.toLowerCase())`. */
  predicate ContainsIgnoringCase(s: string, term: string)
  {
    Contains(ToLower(s), ToLower(term))
  }

  lemma ContainsIgnoringCaseEmpty(s: string)
    ensures ContainsIgnoringCase(s, "")
  {
    assert ToLower("") == "";
    ContainsEmpty(ToLower(s));
  }

  /** String.prototype.trimStart. */
  function TrimStart(s: string): (r: string)
    ensures |r| <= |s| && r == s[|s| - |r|..]
    ensures r == [] || !IsSpace(r[0])
    ensures forall i :: 0 <= i < |s| - |r| ==> IsSpace(s[i])
    decreases |s|
  {
    if s != [] && IsSpace(s[0]) then
      var r := TrimStart(s[1..]);
      assert forall i :: 1 <= i < |s| - |r| ==> s[i] == s[1..][i - 1];
      r
    else s
  }

  /** String.prototype.trimEnd. */
  function TrimEnd(s: string): (r: string)
    ensures |r| <= |s| && r == s[..|r|]
    ensures r == [] || !IsSpace(r[|r| - 1])
    ensures forall i :: |r| <= i < |s| ==> IsSpace(s[i])
    decreases |s|
  {
    if s != [] && IsSpace(s[|s| - 1]) then TrimEnd(s[..|s| - 1]) else s
  }

  /** String.prototype.trim. */
  function Trim(s: string): (r: string)
  {
    TrimEnd(TrimStart(s))
  }

  /** `s.trim()` is falsy (empty) exactly when `s` is all white space. */
  lemma TrimEmptyIff(s: string)
    ensures Trim(s) == "" <==> forall i :: 0 <= i < |s| ==> IsSpace(s[i])
  {
  }

  /** A trimmed string neither starts nor ends with white space and is a
      contiguous piece of the original. */
  lemma TrimShape(s: string)
    ensures var r := Trim(s);
      (r == [] || (!IsSpace(r[0]) && !IsSpace(r[|r| - 1]))) &&
      exists i :: OccursAt(s, r, i)
  {
    var a := TrimStart(s);
    var r := TrimEnd(a);
    if r != [] {
      assert r[0] == a[0];
    }
    var i := |s| - |a|;
    assert s[i..i + |r|] == r by {
      assert a == s[i..] && r == a[..|r|];
    }
    assert OccursAt(s, r, i);
  }

  /** `s.replace(/\s+/g, '_')`: every maximal run of white space becomes one `_`. */
  function UnderscoreSpaces(s: string): (r: string)
    ensures NoSpace(r)
    decreases |s|
  {
    if s == [] then []
    else if IsSpace(s[0]) then
      "_" + UnderscoreSpaces(TrimStart(s))
    else [s[0]] + UnderscoreSpaces(s[1..])
  }

  /** A string without white space passes through the replacement unchanged. */
  lemma {:induction false} UnderscoreSpacesIdentity(s: string)
    requires NoSpace(s)
    ensures UnderscoreSpaces(s) == s
    decreases |s|
  {
    if s != [] {
      UnderscoreSpacesIdentity(s[1..]);
    }
  }

  /** `s.charAt(0).toUpperCase() + s.slice(1)`. */
  function Capitalize(s: string): (r: string)
    ensures |r| == |s|
    ensures s == [] || r[1..] == s[1..]
  {
    if s == [] then "" else [UpperChar(s[0])] + s[1..]
  }

  /** `s.replace(a, b)` with a one-character string pattern: only the first
      occurrence of `a` is replaced. */
  function ReplaceFirst(s: string, a: char, b: char): (r: string)
    ensures |r| == |s|
    ensures a !in s ==> r == s
    ensures a in s ==> var k := IndexOf(s, a);
      r[k] == b && forall i :: 0 <= i < |s| && i != k ==> r[i] == s[i]
    decreases |s|
  {
    if s == [] then ""
    else if s[0] == a then [b] + s[1..]
    else [s[0]] + ReplaceFirst(s[1..], a, b)
  }

  /** When the first `a` sits at `k`, replacing it splices `b` in at `k`. */
  lemma {:induction false} ReplaceFirstAt(s: string, a: char, b: char, k: nat)
    requires k < |s| && s[k] == a && a !in s[..k]
    ensures ReplaceFirst(s, a, b) == s[..k] + [b] + s[k + 1..]
    decreases k
  {
    if k > 0 {
      assert s[0] == s[..k][0];
      var t := s[1..];
      assert t[..k - 1] == s[1..k];
      ReplaceFirstAt(t, a, b, k - 1);
      assert t[k..] == s[k + 1..];
      assert [s[0]] + s[1..k] == s[..k];
    }
  }
}
