/** The few operations on Python strings that the toolkit relies on:
    substring tests (`sub in s`), `lower()`, `upper()`, `strip()`,
    `s.split(sep)[-1]`, slicing with clamped bounds and the ordering
    `<=` of `str` values, all on strings as sequences of characters. */
module Text {
  import opened Prelude

  /** `sub` occurs in `s` starting at index `i`. */
  predicate OccursAt(s: string, sub: string, i: nat) {
    i + |sub| <= |s| && s[i..i + |sub|] == sub
  }

  /** The first index at or after `from` where `sub` occurs (Python's `s.find(sub, from)`). */
  function FindFrom(s: string, sub: string, from: nat): (r: Option<nat>)
    ensures r.Some? ==> from <= r.value && OccursAt(s, sub, r.value)
    ensures r.Some? ==> forall j :: from <= j < r.value ==> !OccursAt(s, sub, j)
    ensures r.None? ==> forall j :: from <= j ==> !OccursAt(s, sub, j)
    decreases |s| - from
  {
    if from + |sub| > |s| then None
    else if s[from..from + |sub|] == sub then Some(from)
    else FindFrom(s, sub, from + 1)
  }

  /** Python's `sub in s`. */
  predicate Contains(s: string, sub: string) {
    FindFrom(s, sub, 0).Some?
  }

  lemma ContainsIff(s: string, sub: string)
    ensures Contains(s, sub) <==> exists i :: OccursAt(s, sub, i)
  {
  }

  /** `c.lower()` for the ASCII letters; every other character is kept. */
  function LowerChar(c: char): char {
    if 'A' <= c <= 'Z' then (c as int + 32) as char else c
  }

  /** `c.upper()` for the ASCII letters; every other character is kept. */
  function UpperChar(c: char): char {
    if 'a' <= c <= 'z' then (c as int - 32) as char else c
  }

  /** Python's `s.lower()` (ASCII letters only). */
  function Lower(s: string): (r: string)
    ensures |r| == |s|
    ensures forall i :: 0 <= i < |s| ==> r[i] == LowerChar(s[i])
  {
    if s == [] then [] else [LowerChar(s[0])] + Lower(s[1..])
  }

  /** Python's `s.upper()` (ASCII letters only). */
  function Upper(s: string): (r: string)
    ensures |r| == |s|
    ensures forall i :: 0 <= i < |s| ==> r[i] == UpperChar(s[i])
  {
    if s == [] then [] else [UpperChar(s[0])] + Upper(s[1..])
  }

  /** The characters Python's `str.isspace()` accepts, which are the ones `strip()` removes. */
  predicate IsSpace(c: char) {
    var n := c as int;
    || 0x09 <= n <= 0x0d || 0x1c <= n <= 0x20
    || n == 0x85 || n == 0xa0 || n == 0x1680
    || 0x2000 <= n <= 0x200a
    || n == 0x2028 || n == 0x2029 || n == 0x202f || n == 0x205f || n == 0x3000
  }

  function StripLeft(s: string): (r: string)
    ensures |r| <= |s| && r == s[|s| - |r|..]
    ensures r != [] ==> !IsSpace(r[0])
    ensures forall i :: 0 <= i < |s| - |r| ==> IsSpace(s[i])
  {
    if s != [] && IsSpace(s[0]) then StripLeft(s[1..]) else s
  }

  function StripRight(s: string): (r: string)
    ensures |r| <= |s| && r == s[..|r|]
    ensures r != [] ==> !IsSpace(r[|r| - 1])
    ensures forall i :: |r| <= i < |s| ==> IsSpace(s[i])
  {
    if s != [] && IsSpace(s[|s| - 1]) then StripRight(s[..|s| - 1]) else s
  }

  /** Python's `s.strip()`: the result is the part of `s` between a run of
      leading and a run of trailing whitespace, and itself starts and ends
      with a non-space. */
  function Strip(s: string): (r: string)
    ensures var k := |s| - |StripLeft(s)|;
            && k + |r| <= |s| && r == s[k..k + |r|]
            && (forall i :: 0 <= i < k ==> IsSpace(s[i]))
            && (forall i :: k + |r| <= i < |s| ==> IsSpace(s[i]))
    ensures r != [] ==> !IsSpace(r[0]) && !IsSpace(r[|r| - 1])
  {
    var left := StripLeft(s);
    var r := StripRight(left);
    InnerPart(s, left, r);
    r
  }

  /** A prefix `r` of the suffix `left` of `s` sits inside `s`, and what
      follows `r` in `left` is what follows it in `s`. */
  lemma InnerPart(s: string, left: string, r: string)
    requires |left| <= |s| && left == s[|s| - |left|..]
    requires |r| <= |left| && r == left[..|r|]
    requires forall i :: |r| <= i < |left| ==> IsSpace(left[i])
    ensures var k := |s| - |left|;
            && r == s[k..k + |r|]
            && forall i :: k + |r| <= i < |s| ==> IsSpace(s[i])
  {
    var k := |s| - |left|;
    forall i | k + |r| <= i < |s|
      ensures IsSpace(s[i])
    {
      assert s[i] == left[i - k];
    }
  }

  /** Where the text after the last separator begins: `from` itself when no
      separator starts at or after `from`; otherwise the end of the last
      separator found scanning left to right. */
  function LastSeparatorEnd(s: string, sep: string, from: nat): (k: nat)
    requires sep != [] && from <= |s|
    ensures from <= k <= |s|
    ensures FindFrom(s, sep, k).None?
    ensures FindFrom(s, sep, from).Some? ==> k >= |sep| && OccursAt(s, sep, k - |sep|)
    ensures FindFrom(s, sep, from).None? ==> k == from
    decreases |s| - from
  {
    match FindFrom(s, sep, from)
    case None => from
    case Some(i) => LastSeparatorEnd(s, sep, i + |sep|)
  }

  lemma NoOccurrenceInSuffix(s: string, sep: string, k: nat)
    requires k <= |s| && FindFrom(s, sep, k).None?
    ensures !Contains(s[k..], sep)
  {
    if Contains(s[k..], sep) {
      var j := FindFrom(s[k..], sep, 0).value;
      assert s[k..][j..j + |sep|] == s[k + j..k + j + |sep|];
      assert OccursAt(s, sep, k + j);
    }
  }

  /** Python's `s.split(sep)[-1]`: the text after the last separator (it
      holds no separator and directly follows one), or the whole string
      when `sep` does not occur. Separators are found left to right
      without overlapping, as Python does, so for a separator that
      overlaps itself the result is the suffix after `LastSeparatorEnd`.
      Python refuses an empty separator. */
  function LastPiece(s: string, sep: string): (r: string)
    requires sep != []
    ensures |r| <= |s| && r == s[|s| - |r|..]
    ensures !Contains(r, sep)
    ensures !Contains(s, sep) ==> r == s
    ensures Contains(s, sep) ==> |r| + |sep| <= |s| && OccursAt(s, sep, |s| - |r| - |sep|)
    ensures r == s[LastSeparatorEnd(s, sep, 0)..]
  {
    var k := LastSeparatorEnd(s, sep, 0);
    NoOccurrenceInSuffix(s, sep, k);
    var r := s[k..];
    assert |s| - |r| == k;
    assert k == 0 ==> r == s;
    r
  }

  /** When the separator occurs once, at `i`, the last piece is what follows it. */
  lemma OnlySeparatorPiece(s: string, sep: string, i: nat)
    requires sep != [] && FindFrom(s, sep, 0) == Some(i) && FindFrom(s, sep, i + |sep|).None?
    ensures i + |sep| <= |s| && LastPiece(s, sep) == s[i + |sep|..]
  {
    assert LastSeparatorEnd(s, sep, i + |sep|) == i + |sep|;
  }

  /** Python's `s[lo:hi]` for `0 <= lo <= hi`: bounds beyond the end are clamped. */
  function Slice(s: string, lo: nat, hi: nat): (r: string)
    requires lo <= hi
    ensures |r| <= hi - lo
    ensures lo <= |s| ==> r == s[lo..if hi <= |s| then hi else |s|]
    ensures lo > |s| ==> r == []
  {
    if lo >= |s| then [] else s[lo..if hi <= |s| then hi else |s|]
  }

  /** Python's `a <= b` on `str`: lexicographic by code point, a proper prefix first. */
  predicate LexLe(a: string, b: string) {
    if a == [] then true
    else if b == [] then false
    else if a[0] != b[0] then a[0] < b[0]
    else LexLe(a[1..], b[1..])
  }

  lemma {:induction false} LexLeReflexive(a: string)
    ensures LexLe(a, a)
  {
    if a != [] {
      LexLeReflexive(a[1..]);
    }
  }

  lemma {:induction false} LexLeTotal(a: string, b: string)
    ensures LexLe(a, b) || LexLe(b, a)
  {
    if a != [] && b != [] && a[0] == b[0] {
      LexLeTotal(a[1..], b[1..]);
    }
  }

  lemma {:induction false} LexLeTransitive(a: string, b: string, c: string)
    requires LexLe(a, b) && LexLe(b, c)
    ensures LexLe(a, c)
  {
    if a != [] && b != [] && c != [] && a[0] == b[0] && b[0] == c[0] {
      LexLeTransitive(a[1..], b[1..], c[1..]);
    }
  }
}
