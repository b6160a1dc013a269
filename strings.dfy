/** The JavaScript string methods js/main.js relies on: `replaceAll` with a
    one-character pattern, `toLowerCase`, `trim` and `includes`. */
module Strings {

  predicate HasPrefix(s: string, p: string) {
    |p| <= |s| && s[..|p|] == p
  }

  /** `s.includes(q)`: `q` occurs in `s` as a contiguous block. */
  predicate Includes(s: string, q: string) {
    exists i | 0 <= i <= |s| - |q| :: OccursAt(s, q, i)
  }

  predicate OccursAt(s: string, q: string, i: int) {
    0 <= i <= |s| - |q| && s[i..i + |q|] == q
  }

  /** `s.replaceAll(c, rep)` for a pattern of one character `c`. */
  function ReplaceAll(s: string, c: char, rep: string): (r: string)
    ensures c !in rep ==> c !in r
  {
    if s == [] then [] else (if s[0] == c then rep else [s[0]]) + ReplaceAll(s[1..], c, rep)
  }

  /** Replacing in a concatenation is replacing in each part. */
  lemma {:induction false} ReplaceAllConcat(a: string, b: string, c: char, rep: string)
    ensures ReplaceAll(a + b, c, rep) == ReplaceAll(a, c, rep) + ReplaceAll(b, c, rep)
  {
    if a != [] {
      assert (a + b)[0] == a[0] && (a + b)[1..] == a[1..] + b;
      ReplaceAllConcat(a[1..], b, c, rep);
    } else {
      assert a + b == b;
    }
  }

  lemma ReplaceAllChar(c: char, d: char, rep: string)
    ensures ReplaceAll([c], d, rep) == if c == d then rep else [c]
  {
    assert [c][1..] == [];
  }

  /** A string without the pattern character is left as it is. */
  lemma {:induction false} ReplaceAllAbsent(s: string, c: char, rep: string)
    requires c !in s
    ensures ReplaceAll(s, c, rep) == s
  {
    if s != [] {
      ReplaceAllAbsent(s[1..], c, rep);
    }
  }

  /** A character in neither the string nor the replacement stays absent. */
  lemma {:induction false} ReplaceAllKeepsAbsent(s: string, c: char, rep: string, d: char)
    requires d !in s && d !in rep
    ensures d !in ReplaceAll(s, c, rep)
  {
    if s != [] {
      ReplaceAllKeepsAbsent(s[1..], c, rep, d);
    }
  }

  /** Every occurrence in `r` of the first character of `w` starts a copy of `w`. */
  predicate MarksCopies(r: string, w: string)
    requires w != []
  {
    forall i :: 0 <= i < |r| && r[i] == w[0] ==> OccursAt(r, w, i)
  }

  /** When the replacement's first character occurs nowhere else, each of its
      occurrences in the result starts a whole copy of the replacement. */
  lemma {:induction false} ReplaceAllMarks(s: string, c: char, rep: string)
    requires rep != [] && rep[0] !in s && rep[0] !in rep[1..]
    ensures MarksCopies(ReplaceAll(s, c, rep), rep)
  {
    if s != [] {
      var head := if s[0] == c then rep else [s[0]];
      var rest := ReplaceAll(s[1..], c, rep);
      ReplaceAllMarks(s[1..], c, rep);
      var r := head + rest;
      assert r == ReplaceAll(s, c, rep);
      forall i | 0 <= i < |r| && r[i] == rep[0]
        ensures OccursAt(r, rep, i)
      {
        if i < |head| {
          assert r[..|rep|] == head;
        } else {
          var j := i - |head|;
          assert rest[j] == r[i];
          assert OccursAt(rest, rep, j);
          assert r[i..i + |rep|] == rest[j..j + |rep|];
        }
      }
    }
  }

  /** `toLowerCase` on one character; only ASCII letters are mapped. */
  function LowerChar(c: char): char {
    if 'A' <= c <= 'Z' then (c as int + 32) as char else c
  }

  /** `s.toLowerCase()` restricted to ASCII letters. */
  function Lower(s: string): (r: string)
    ensures |r| == |s|
    ensures forall i :: 0 <= i < |s| ==> r[i] == LowerChar(s[i])
  {
    seq(|s|, i requires 0 <= i < |s| => LowerChar(s[i]))
  }

  lemma LowerIdempotent(s: string)
    ensures Lower(Lower(s)) == Lower(s)
  {
  }

  /** The characters `trim` removes: ECMAScript WhiteSpace and LineTerminator. */
  predicate IsWhite(c: char) {
    || c == '\t' || c == '\n' || c == '\U{000B}' || c == '\U{000C}' || c == '\r' || c == ' '
    || c == '\U{00A0}' || c == '\U{1680}' || ('\U{2000}' <= c <= '\U{200A}')
    || c == '\U{2028}' || c == '\U{2029}' || c == '\U{202F}' || c == '\U{205F}'
    || c == '\U{3000}' || c == '\U{FEFF}'
  }

  /** `s.trimStart()`: the suffix of `s` left after its leading white space. */
  function TrimStart(s: string): (r: string)
    ensures |r| <= |s| && r == s[|s| - |r|..]
    ensures r == [] || !IsWhite(r[0])
    ensures forall k :: 0 <= k < |s| - |r| ==> IsWhite(s[k])
  {
    if s != [] && IsWhite(s[0]) then TrimStart(s[1..]) else s
  }

  /** `s.trimEnd()`: the prefix of `s` left before its trailing white space. */
  function TrimEnd(s: string): (r: string)
    ensures |r| <= |s| && r == s[..|r|]
    ensures r == [] || !IsWhite(r[|r| - 1])
    ensures forall k :: |r| <= k < |s| ==> IsWhite(s[k])
  {
    if s != [] && IsWhite(s[|s| - 1]) then TrimEnd(s[..|s| - 1]) else s
  }

  /** `s.trim()`. */
  function Trim(s: string): string {
    TrimEnd(TrimStart(s))
  }

  lemma TrimIdempotent(s: string)
    ensures Trim(Trim(s)) == Trim(s)
  {
    var r := Trim(s);
    if r != [] {
      assert !IsWhite(r[|r| - 1]);
      assert TrimStart(r) == r;
    }
  }

  /** Lowercasing keeps the characters `trim` looks at white or not. */
  lemma TrimAllowsLower(t: string)
    ensures forall i :: 0 <= i < |t| ==> (IsWhite(Lower(t)[i]) <==> IsWhite(t[i]))
  {
  }

  /** A trimmed string stays trimmed once lowercased. */
  lemma TrimOfLower(t: string)
    requires Trim(t) == t
    ensures Trim(Lower(t)) == Lower(t)
  {
    TrimAllowsLower(t);
    var u := Lower(t);
    if u != [] {
      assert !IsWhite(t[0]) && !IsWhite(t[|t| - 1]) by {
        assert t == TrimEnd(TrimStart(t));
        TrimStartEndFixed(t);
      }
      assert TrimStart(u) == u;
    }
  }

  /** A string equal to its trim starts and ends with a non-white character. */
  lemma TrimStartEndFixed(t: string)
    requires t != [] && Trim(t) == t
    ensures !IsWhite(t[0]) && !IsWhite(t[|t| - 1])
  {
    var a := TrimStart(t);
    assert |TrimEnd(a)| <= |a| <= |t|;
    assert a == t;
  }
}
