/** Character classes and searches on strings shared by several modules. */
module Strings {

  import opened Wrappers

  predicate IsDigit(c: char) {
    '0' <= c <= '9'
  }

  predicate AllDigits(s: string) {
    forall k | 0 <= k < |s| :: IsDigit(s[k])
  }

  function DigitValue(c: char): (n: int)
    requires IsDigit(c)
    ensures 0 <= n <= 9
  {
    c as int - '0' as int
  }

  /** The first index of `c` in `s`. */
  function IndexOf(s: string, c: char): (r: Option<nat>)
    ensures r.Some? ==> r.value < |s| && s[r.value] == c && c !in s[..r.value]
    ensures r.None? ==> c !in s
  {
    if s == [] then None
    else if s[0] == c then Some(0)
    else match IndexOf(s[1..], c)
      case None => None
      case Some(k) => assert s[..k + 1] == [s[0]] + s[1..][..k]; Some(k + 1)
  }

  /** `str.lower()` restricted to ASCII letters. */
  function Lower(s: string): (r: string)
    ensures |r| == |s|
    ensures forall k | 0 <= k < |s| :: r[k] == LowerChar(s[k])
  {
    if s == [] then [] else [LowerChar(s[0])] + Lower(s[1..])
  }

  function LowerChar(c: char): char {
    if 'A' <= c <= 'Z' then (c as int + 32) as char else c
  }

  /** `needle` occurs in `hay` at position `i`. */
  predicate OccursAt(hay: string, needle: string, i: nat) {
    i + |needle| <= |hay| && hay[i..i + |needle|] == needle
  }

  /** Python's `needle in hay` for strings: the first position where it occurs. */
  function Find(hay: string, needle: string): (r: Option<nat>)
    ensures r.Some? ==> OccursAt(hay, needle, r.value)
    ensures r.Some? ==> forall i | 0 <= i < r.value :: !OccursAt(hay, needle, i)
    ensures r.None? ==> forall i | 0 <= i <= |hay| :: !OccursAt(hay, needle, i)
    decreases |hay|
  {
    if OccursAt(hay, needle, 0) then Some(0)
    else if hay == [] then None
    else match Find(hay[1..], needle)
      case None =>
        OccursShift(hay, needle);
        None
      case Some(k) =>
        OccursShift(hay, needle);
        Some(k + 1)
  }

  lemma OccursShift(hay: string, needle: string)
    requires hay != []
    ensures forall i | 1 <= i <= |hay| :: OccursAt(hay, needle, i) == OccursAt(hay[1..], needle, i - 1)
  {
    forall i | 1 <= i <= |hay| ensures OccursAt(hay, needle, i) == OccursAt(hay[1..], needle, i - 1) {
      if i + |needle| <= |hay| {
        var a, b := hay[i..i + |needle|], hay[1..][i - 1..i - 1 + |needle|];
        assert |a| == |b|;
        forall k | 0 <= k < |a| ensures a[k] == b[k] {
          assert a[k] == hay[i + k];
          assert b[k] == hay[1..][i - 1 + k] == hay[i + k];
        }
        assert a == b;
      }
    }
  }

  predicate Contains(hay: string, needle: string) {
    Find(hay, needle).Some?
  }
}
