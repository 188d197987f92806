/** The two JavaScript string operations the research pipeline depends on. */
module JsText {

  /** Number of UTF-16 code units JavaScript uses for one Unicode scalar value. */
  function CodeUnits(c: char): (n: nat)
    ensures n == 1 || n == 2
    ensures n == 2 <==> c as int > 0xFFFF
  {
    if c as int > 0xFFFF then 2 else 1
  }

  /** `s.length` in JavaScript, which counts UTF-16 code units rather than characters. */
  function Utf16Length(s: string): (n: nat)
    ensures |s| <= n <= 2 * |s|
  {
    if s == [] then 0 else CodeUnits(s[0]) + Utf16Length(s[1..])
  }

  /** The JavaScript length of a concatenation is the sum of the lengths. */
  lemma {:induction false} Utf16LengthConcat(a: string, b: string)
    ensures Utf16Length(a + b) == Utf16Length(a) + Utf16Length(b)
  {
    if a == [] {
      assert a + b == b;
    } else {
      assert (a + b)[0] == a[0];
      assert (a + b)[1..] == a[1..] + b;
      Utf16LengthConcat(a[1..], b);
    }
  }

  /** A string made only of characters of the Basic Multilingual Plane has one code unit per character. */
  lemma {:induction false} Utf16LengthBmp(s: string)
    requires forall i :: 0 <= i < |s| ==> s[i] as int <= 0xFFFF
    ensures Utf16Length(s) == |s|
  {
    if s != [] {
      assert forall i :: 0 <= i < |s[1..]| ==> s[1..][i] == s[i + 1];
      Utf16LengthBmp(s[1..]);
    }
  }

  /** The window of hay that starts at position i equals needle. */
  ghost predicate OccursAt(needle: string, hay: string, i: int) {
    0 <= i <= |hay| - |needle| && hay[i..i + |needle|] == needle
  }

  /** Reference meaning of "needle occurs in hay": some window of hay equals needle. */
  ghost predicate IsSubstring(needle: string, hay: string) {
    exists i :: OccursAt(needle, hay, i)
  }

  /** `t` is a suffix of `s`. */
  predicate IsSuffix(t: string, s: string) {
    |t| <= |s| && s[|s| - |t|..] == t
  }

  /** `hay.includes(needle)`: tries each starting position of hay in turn; agrees with the reference definition. */
  function Includes(hay: string, needle: string): (r: bool)
    ensures r <==> IsSubstring(needle, hay)
    decreases |hay|
  {
    if needle <= hay then
      assert OccursAt(needle, hay, 0);
      true
    else if hay == [] then
      false
    else
      SubstringOfTail(hay, needle);
      Includes(hay[1..], needle)
  }

  /** When hay does not start with needle, needle occurs in hay exactly when it occurs in hay's tail. */
  lemma SubstringOfTail(hay: string, needle: string)
    requires hay != [] && !(needle <= hay)
    ensures IsSubstring(needle, hay) <==> IsSubstring(needle, hay[1..])
  {
    var tail := hay[1..];
    if IsSubstring(needle, hay) {
      var i :| OccursAt(needle, hay, i);
      assert i != 0;
      assert tail[i - 1..i - 1 + |needle|] == hay[i..i + |needle|];
      assert OccursAt(needle, tail, i - 1);
    }
    if IsSubstring(needle, tail) {
      var j :| OccursAt(needle, tail, j);
      assert hay[j + 1..j + 1 + |needle|] == tail[j..j + |needle|];
      assert OccursAt(needle, hay, j + 1);
    }
  }

  /** A string always occurs in itself surrounded by any text. */
  lemma InfixIsSubstring(pre: string, mid: string, post: string)
    ensures IsSubstring(mid, pre + mid + post)
  {
    var hay := pre + mid + post;
    assert hay[|pre|..|pre| + |mid|] == mid;
    assert OccursAt(mid, hay, |pre|);
  }
}
