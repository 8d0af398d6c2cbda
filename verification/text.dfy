/**
 * String helpers with the meaning of the JavaScript string methods the editor
 * uses: `trim`, `startsWith`, `includes`, `lastIndexOf`, `toUpperCase`,
 * `toLowerCase` and `repeat`. Whitespace is a fixed set of characters (the
 * ASCII blanks and the no-break space) rather than the full Unicode class.
 */
module Text {

  predicate IsSpace(c: char) {
    c == ' ' || c == '\t' || c == '\n' || c == '\r' ||
    c == '\U{000B}' || c == '\U{000C}' || c == '\U{00A0}'
  }

  /** `s.startsWith(p)` */
  predicate StartsWith(s: string, p: string) {
    |p| <= |s| && s[..|p|] == p
  }

  /** `s.endsWith(p)` */
  predicate EndsWith(s: string, p: string) {
    |p| <= |s| && s[|s| - |p|..] == p
  }

  /** `w` occurs in `s` starting at position `i`. */
  predicate OccursAt(s: string, w: string, i: int) {
    0 <= i && i + |w| <= |s| && s[i..i + |w|] == w
  }

  /** `s.includes(sub)`: `sub` occurs somewhere in `s`. */
  predicate Contains(s: string, sub: string) {
    |sub| <= |s| && (s[..|sub|] == sub || Contains(s[1..], sub))
  }

  /** Every positive answer of `Contains` has a position behind it. */
  lemma {:induction false} ContainsOccurs(s: string, sub: string)
    ensures Contains(s, sub) ==> exists i :: OccursAt(s, sub, i)
  {
    if |sub| <= |s| && s[..|sub|] != sub && Contains(s[1..], sub) {
      ContainsOccurs(s[1..], sub);
      var i :| OccursAt(s[1..], sub, i);
      assert s[1..][i..i + |sub|] == s[i + 1..i + 1 + |sub|];
      assert OccursAt(s, sub, i + 1);
    } else if |sub| <= |s| && s[..|sub|] == sub {
      assert OccursAt(s, sub, 0);
    }
  }

  /** A needle found at some position is contained. */
  lemma {:induction false} OccursContains(s: string, sub: string, i: nat)
    requires OccursAt(s, sub, i)
    ensures Contains(s, sub)
    decreases i
  {
    if i > 0 {
      assert s[1..][i - 1..i - 1 + |sub|] == s[i..i + |sub|];
      OccursContains(s[1..], sub, i - 1);
    }
  }

  /** A needle holding a character the haystack lacks does not occur in it. */
  lemma MissingChar(s: string, sub: string, c: char)
    requires c in sub && c !in s
    ensures !Contains(s, sub)
  {
    ContainsOccurs(s, sub);
  }

  /** The needle fails to match at position `i` because of its character `k` (or runs off the end). */
  predicate MismatchAt(s: string, sub: string, i: nat, k: nat) {
    i + |sub| > |s| || (k < |sub| && s[i + k] != sub[k])
  }

  /** A needle at most four characters shorter than the haystack, refuted position by position. */
  lemma NotContainsNear(s: string, sub: string, k0: nat, k1: nat, k2: nat, k3: nat, k4: nat)
    requires |sub| + 5 > |s|
    requires MismatchAt(s, sub, 0, k0) && MismatchAt(s, sub, 1, k1) && MismatchAt(s, sub, 2, k2)
    requires MismatchAt(s, sub, 3, k3) && MismatchAt(s, sub, 4, k4)
    ensures !Contains(s, sub)
  {
    ContainsOccurs(s, sub);
  }

  /** Whitespace removed from the front. */
  function TrimStart(s: string): (r: string)
    ensures |r| <= |s| && r == s[|s| - |r|..]
    ensures forall i :: 0 <= i < |s| - |r| ==> IsSpace(s[i])
    ensures r == [] || !IsSpace(r[0])
  {
    if s != [] && IsSpace(s[0]) then TrimStart(s[1..]) else s
  }

  /** Whitespace removed from the back. */
  function TrimEnd(s: string): (r: string)
    ensures |r| <= |s| && r == s[..|r|]
    ensures forall i :: |r| <= i < |s| ==> IsSpace(s[i])
    ensures r == [] || !IsSpace(r[|r| - 1])
  {
    if s != [] && IsSpace(s[|s| - 1]) then TrimEnd(s[..|s| - 1]) else s
  }

  /** `s.trim()` */
  function Trim(s: string): string {
    TrimEnd(TrimStart(s))
  }

  /** A trimmed string has no whitespace at either end, and trimming it again changes nothing. */
  lemma TrimIsTrimmed(s: string)
    ensures var t := Trim(s); t == [] || (!IsSpace(t[0]) && !IsSpace(t[|t| - 1]))
    ensures Trim(Trim(s)) == Trim(s)
  {
    var u := TrimStart(s);
    var t := TrimEnd(u);
    assert t == u[..|t|];
    if t != [] {
      assert t[0] == u[0];
    }
  }

  function UpperChar(c: char): char {
    if 'a' <= c <= 'z' then (c as int - 32) as char else c
  }

  function LowerChar(c: char): char {
    if 'A' <= c <= 'Z' then (c as int + 32) as char else c
  }

  /** `s.toUpperCase()`, for the ASCII letters. */
  function ToUpper(s: string): (r: string)
    ensures |r| == |s| && forall i :: 0 <= i < |s| ==> r[i] == UpperChar(s[i])
  {
    if s == [] then [] else [UpperChar(s[0])] + ToUpper(s[1..])
  }

  /** `s.toLowerCase()`, for the ASCII letters. */
  function ToLower(s: string): (r: string)
    ensures |r| == |s| && forall i :: 0 <= i < |s| ==> r[i] == LowerChar(s[i])
  {
    if s == [] then [] else [LowerChar(s[0])] + ToLower(s[1..])
  }

  /** `' '.repeat(n)` */
  function Spaces(n: nat): (r: string)
    ensures |r| == n && forall i :: 0 <= i < n ==> r[i] == ' '
  {
    if n == 0 then [] else Spaces(n - 1) + [' ']
  }

  /**
   * `s.lastIndexOf(w)`: the greatest position at which `w` occurs in `s`, or
   * -1 when it does not occur at all.
   */
  function LastIndexOf(s: string, w: string): (r: int)
    ensures r == -1 || OccursAt(s, w, r)
    ensures forall j :: r < j ==> !OccursAt(s, w, j)
  {
    if |w| > |s| then -1 else LastIndexBelow(s, w, |s| - |w| + 1)
  }

  /** The greatest position below `k` at which `w` occurs in `s`, or -1. */
  function LastIndexBelow(s: string, w: string, k: nat): (r: int)
    requires |w| <= |s| && k <= |s| - |w| + 1
    ensures -1 <= r < k
    ensures r == -1 || OccursAt(s, w, r)
    ensures forall j :: r < j && (j < k || j > |s| - |w|) ==> !OccursAt(s, w, j)
  {
    if k == 0 then -1
    else if s[k - 1..k - 1 + |w|] == w then k - 1
    else LastIndexBelow(s, w, k - 1)
  }

  /** Decimal digits of `n`. */
  function Digits(n: nat): (r: string)
    ensures r != []
    decreases n
  {
    var d := ['0' + (n % 10) as char];
    if n < 10 then d else Digits(n / 10) + d
  }
}
