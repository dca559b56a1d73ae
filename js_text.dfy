/** The JavaScript string operations the normaliser relies on (toLowerCase,
    toUpperCase, trim, includes), restricted to ASCII letters and ASCII
    whitespace. */
module JsText {

  /** The ASCII characters String.prototype.trim strips: space, tab, line feed,
      vertical tab, form feed and carriage return. */
  predicate IsSpace(c: char) {
    c == ' ' || c == '\t' || c == '\n' || c == '\r' || c as int == 11 || c as int == 12
  }

  predicate IsUpper(c: char) { 'A' <= c <= 'Z' }

  predicate IsLower(c: char) { 'a' <= c <= 'z' }

  function LowerChar(c: char): (r: char)
    ensures !IsUpper(r)
    ensures IsSpace(r) == IsSpace(c)
  {
    if IsUpper(c) then (c as int + 32) as char else c
  }

  function UpperChar(c: char): (r: char)
    ensures !IsLower(r)
    ensures IsSpace(r) == IsSpace(c)
  {
    if IsLower(c) then (c as int - 32) as char else c
  }

  /** String.prototype.toLowerCase on ASCII letters. */
  function ToLowerCase(s: string): (r: string)
    ensures |r| == |s|
    ensures forall i :: 0 <= i < |r| ==> !IsUpper(r[i])
    ensures forall i :: 0 <= i < |s| && !IsUpper(s[i]) ==> r[i] == s[i]
  {
    seq(|s|, i requires 0 <= i < |s| => LowerChar(s[i]))
  }

  /** String.prototype.toUpperCase on ASCII letters. */
  function ToUpperCase(s: string): (r: string)
    ensures |r| == |s|
    ensures forall i :: 0 <= i < |r| ==> !IsLower(r[i])
    ensures forall i :: 0 <= i < |s| && !IsLower(s[i]) ==> r[i] == s[i]
  {
    seq(|s|, i requires 0 <= i < |s| => UpperChar(s[i]))
  }

  predicate AllSpace(s: string) {
    forall i :: 0 <= i < |s| ==> IsSpace(s[i])
  }

  /** The number of whitespace characters s starts with (LeadingSpaceShape
      says which). */
  function LeadingSpace(s: string): (n: nat)
    ensures n <= |s|
    decreases |s|
  {
    if |s| > 0 && IsSpace(s[0]) then 1 + LeadingSpace(s[1..]) else 0
  }

  /** The number of whitespace characters s ends with (TrailingSpaceShape
      says which). */
  function TrailingSpace(s: string): (n: nat)
    ensures n <= |s|
    decreases |s|
  {
    if |s| > 0 && IsSpace(s[|s| - 1]) then 1 + TrailingSpace(s[..|s| - 1]) else 0
  }

  /** The first LeadingSpace(s) characters are whitespace and the next one,
      if any, is not. */
  lemma {:induction false} LeadingSpaceShape(s: string)
    ensures forall k :: 0 <= k < LeadingSpace(s) ==> IsSpace(s[k])
    ensures LeadingSpace(s) < |s| ==> !IsSpace(s[LeadingSpace(s)])
    decreases |s|
  {
    if |s| > 0 && IsSpace(s[0]) {
      LeadingSpaceShape(s[1..]);
      assert forall k :: 1 <= k <= |s| - 1 ==> s[k] == s[1..][k - 1];
    }
  }

  /** The last TrailingSpace(s) characters are whitespace and the one before
      them, if any, is not. */
  lemma {:induction false} TrailingSpaceShape(s: string)
    ensures forall k :: |s| - TrailingSpace(s) <= k < |s| ==> IsSpace(s[k])
    ensures TrailingSpace(s) < |s| ==> !IsSpace(s[|s| - 1 - TrailingSpace(s)])
    decreases |s|
  {
    if |s| > 0 && IsSpace(s[|s| - 1]) {
      var p := s[..|s| - 1];
      TrailingSpaceShape(p);
      assert forall k :: 0 <= k < |p| ==> s[k] == p[k];
    }
  }

  /** The three properties of LeadingSpace determine it. */
  lemma LeadingSpaceUnique(s: string, n: nat)
    requires n <= |s|
    requires forall k :: 0 <= k < n ==> IsSpace(s[k])
    requires n < |s| ==> !IsSpace(s[n])
    ensures n == LeadingSpace(s)
  {
    LeadingSpaceShape(s);
  }

  /** The three properties of TrailingSpace determine it. */
  lemma TrailingSpaceUnique(s: string, n: nat)
    requires n <= |s|
    requires forall k :: |s| - n <= k < |s| ==> IsSpace(s[k])
    requires n < |s| ==> !IsSpace(s[|s| - 1 - n])
    ensures n == TrailingSpace(s)
  {
    TrailingSpaceShape(s);
  }

  /** String.prototype.trim: the whitespace at both ends is dropped, so the
      result neither starts nor ends with whitespace (TrimShape says what is
      dropped). */
  function Trim(s: string): (r: string)
    ensures |r| <= |s|
    ensures r == [] || (!IsSpace(r[0]) && !IsSpace(r[|r| - 1]))
  {
    var t := s[LeadingSpace(s)..];
    LeadingSpaceShape(s);
    TrailingSpaceShape(t);
    t[..|t| - TrailingSpace(t)]
  }

  /** Trim(s) is the slice of s after its LeadingSpace(s) leading whitespace
      characters, and everything after it is whitespace too. */
  lemma TrimShape(s: string)
    ensures LeadingSpace(s) + |Trim(s)| <= |s|
    ensures Trim(s) == s[LeadingSpace(s)..LeadingSpace(s) + |Trim(s)|]
    ensures forall k :: LeadingSpace(s) + |Trim(s)| <= k < |s| ==> IsSpace(s[k])
  {
    var i := LeadingSpace(s);
    var t := s[i..];
    var r := Trim(s);
    TrailingSpaceShape(t);
    assert r == s[i..i + |r|];
    assert forall k :: i + |r| <= k < |s| ==> s[k] == t[k - i];
  }

  /** A string that neither starts nor ends with whitespace is its own trim. */
  lemma TrimOfTrimmed(s: string)
    requires s == [] || (!IsSpace(s[0]) && !IsSpace(s[|s| - 1]))
    ensures Trim(s) == s
  {
    if s != [] {
      LeadingSpaceUnique(s, 0);
      TrailingSpaceUnique(s[0..], 0);
      assert s[0..] == s;
    }
  }

  lemma TrimIdempotent(s: string)
    ensures Trim(Trim(s)) == Trim(s)
  {
    TrimOfTrimmed(Trim(s));
  }

  lemma UpperIdempotent(s: string)
    ensures ToUpperCase(ToUpperCase(s)) == ToUpperCase(s)
  {
  }

  /** Trimming and upper-casing commute, because upper-casing maps whitespace
      to whitespace and non-whitespace to non-whitespace. */
  lemma TrimUpperCommute(s: string)
    ensures Trim(ToUpperCase(s)) == ToUpperCase(Trim(s))
  {
    var u := ToUpperCase(s);
    var i := LeadingSpace(s);
    var t := s[i..];
    var j := TrailingSpace(t);
    LeadingSpaceUpper(s);
    UpperSlice(s, i, |s|);
    var tu := u[i..];
    assert tu == ToUpperCase(t);
    TrailingSpaceUpper(t);
    assert TrailingSpace(tu) == j;
    UpperSlice(t, 0, |t| - j);
    TrimSteps(s);
    TrimSteps(u);
  }

  /** Trim in three steps: count the leading whitespace, drop it, drop the
      trailing whitespace of the rest. */
  lemma TrimSteps(s: string)
    ensures var t := s[LeadingSpace(s)..]; Trim(s) == t[..|t| - TrailingSpace(t)]
  {
  }

  lemma LeadingSpaceUpper(s: string)
    ensures LeadingSpace(ToUpperCase(s)) == LeadingSpace(s)
  {
    var u := ToUpperCase(s);
    assert forall k :: 0 <= k < |s| ==> IsSpace(u[k]) == IsSpace(s[k]);
    LeadingSpaceShape(s);
    LeadingSpaceUnique(u, LeadingSpace(s));
  }

  lemma TrailingSpaceUpper(s: string)
    ensures TrailingSpace(ToUpperCase(s)) == TrailingSpace(s)
  {
    var u := ToUpperCase(s);
    assert forall k :: 0 <= k < |s| ==> IsSpace(u[k]) == IsSpace(s[k]);
    TrailingSpaceShape(s);
    TrailingSpaceUnique(u, TrailingSpace(s));
  }

  lemma UpperSlice(s: string, i: int, j: int)
    requires 0 <= i <= j <= |s|
    ensures ToUpperCase(s)[i..j] == ToUpperCase(s[i..j])
  {
  }

  /** Lower-casing forgets an earlier upper-casing. */
  lemma LowerOfUpper(s: string)
    ensures ToLowerCase(ToUpperCase(s)) == ToLowerCase(s)
  {
  }

  /** Upper-casing forgets an earlier lower-casing. */
  lemma UpperOfLower(s: string)
    ensures ToUpperCase(ToLowerCase(s)) == ToUpperCase(s)
  {
  }

  lemma LowerSlice(s: string, i: int, j: int)
    requires 0 <= i <= j <= |s|
    ensures ToLowerCase(s)[i..j] == ToLowerCase(s[i..j])
  {
  }

  predicate StartsWith(s: string, prefix: string) {
    |prefix| <= |s| && s[..|prefix|] == prefix
  }

  /** String.prototype.includes, as a left-to-right scan. */
  predicate Includes(s: string, sub: string)
    decreases |s|
  {
    StartsWith(s, sub) || (|s| > 0 && Includes(s[1..], sub))
  }

  /** sub occurs in s at position i. */
  predicate OccursAt(sub: string, s: string, i: int) {
    0 <= i <= |s| - |sub| && s[i..i + |sub|] == sub
  }

  /** sub occurs in s at some position. */
  ghost predicate OccursIn(sub: string, s: string) {
    exists i :: OccursAt(sub, s, i)
  }

  /** The scan finds sub exactly when sub occurs somewhere in s. */
  lemma IncludesIffOccurs(s: string, sub: string)
    ensures Includes(s, sub) <==> OccursIn(sub, s)
  {
    if Includes(s, sub) {
      var i := IncludesWitness(s, sub);
    }
    if OccursIn(sub, s) {
      var i :| OccursAt(sub, s, i);
      OccursIncludes(s, sub, i);
    }
  }

  /** Where the scan finds sub, sub occurs. */
  lemma {:induction false} IncludesWitness(s: string, sub: string) returns (i: int)
    requires Includes(s, sub)
    ensures OccursAt(sub, s, i)
    decreases |s|
  {
    if StartsWith(s, sub) {
      i := 0;
    } else {
      var j := IncludesWitness(s[1..], sub);
      assert s[1..][j..j + |sub|] == s[j + 1..j + 1 + |sub|];
      i := j + 1;
    }
  }

  /** An occurrence at position i is found by the scan. */
  lemma {:induction false} OccursIncludes(s: string, sub: string, i: int)
    requires OccursAt(sub, s, i)
    ensures Includes(s, sub)
    decreases i
  {
    if i == 0 {
      assert StartsWith(s, sub);
    } else {
      assert s[1..][i - 1..i - 1 + |sub|] == s[i..i + |sub|];
      OccursIncludes(s[1..], sub, i - 1);
    }
  }

  /** If a text contains a word, its lower-cased form contains the word's
      lower-cased form: so a lower-cased search finds the word in any letter
      case. */
  lemma IncludesLower(s: string, sub: string)
    requires Includes(s, sub)
    ensures Includes(ToLowerCase(s), ToLowerCase(sub))
  {
    IncludesIffOccurs(s, sub);
    var i :| OccursAt(sub, s, i);
    LowerSlice(s, i, i + |sub|);
    assert OccursAt(ToLowerCase(sub), ToLowerCase(s), i);
    IncludesIffOccurs(ToLowerCase(s), ToLowerCase(sub));
  }

  /** A text in which the word's first letter never occurs does not contain
      the word. */
  lemma FirstLetterAbsent(s: string, sub: string)
    requires sub != []
    requires forall i :: 0 <= i < |s| ==> s[i] != sub[0]
    ensures !Includes(s, sub)
  {
    forall i | 0 <= i <= |s| - |sub|
      ensures !OccursAt(sub, s, i)
    {
      assert s[i..i + |sub|][0] == s[i] != sub[0];
    }
    IncludesIffOccurs(s, sub);
  }
}
