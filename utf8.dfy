/**
 * UTF-8 as Python's `str.encode("utf-8")` and `bytes.decode("utf-8",
 * errors="ignore")` use it.  Characters are Unicode scalar values (Dafny's
 * `char`), so every string has an encoding.
 */
module Utf8 {

  import opened Wrappers

  newtype byte = x: int | 0 <= x < 256

  /** Number of bytes UTF-8 uses for `c`. */
  function CharLength(c: char): (n: nat)
    ensures 1 <= n <= 4
  {
    var cp := c as int;
    if cp < 0x80 then 1 else if cp < 0x800 then 2 else if cp < 0x1_0000 then 3 else 4
  }

  /** A continuation byte `10xxxxxx`. */
  predicate IsContinuation(b: byte) {
    0x80 <= b < 0xC0
  }

  /** The UTF-8 encoding of one character. */
  function EncodeChar(c: char): (r: seq<byte>)
    ensures |r| == CharLength(c)
    ensures forall k | 1 <= k < |r| :: IsContinuation(r[k])
    ensures 2 <= |r| ==> !IsContinuation(r[0]) && 0xC0 <= r[0]
  {
    var cp := c as int;
    if cp < 0x80 then
      [cp as byte]
    else if cp < 0x800 then
      [(0xC0 + cp / 64) as byte, (0x80 + cp % 64) as byte]
    else if cp < 0x1_0000 then
      [(0xE0 + cp / 4096) as byte, (0x80 + (cp / 64) % 64) as byte, (0x80 + cp % 64) as byte]
    else
      [(0xF0 + cp / 262144) as byte, (0x80 + (cp / 4096) % 64) as byte,
       (0x80 + (cp / 64) % 64) as byte, (0x80 + cp % 64) as byte]
  }

  /** `s.encode("utf-8")`. */
  function Encode(s: string): (r: seq<byte>)
    ensures s == [] <==> r == []
  {
    if s == [] then [] else EncodeChar(s[0]) + Encode(s[1..])
  }

  /**
   * Decodes one character at the front of `b`, if the bytes there form a
   * complete, shortest-form, in-range encoding; yields the character and
   * the number of bytes it took.
   */
  function DecodeOne(b: seq<byte>): (r: Option<(char, nat)>)
    requires b != []
    ensures r.Some? ==> 1 <= r.value.1 <= |b|
  {
    var b0 := b[0] as int;
    if b0 < 0x80 then
      Some((b0 as char, 1))
    else if 0xC2 <= b0 < 0xE0 then
      if 2 <= |b| && IsContinuation(b[1]) then
        Some((((b0 - 0xC0) * 64 + (b[1] as int - 0x80)) as char, 2))
      else None
    else if 0xE0 <= b0 < 0xF0 then
      if 3 <= |b| && IsContinuation(b[1]) && IsContinuation(b[2]) then
        var cp := (b0 - 0xE0) * 4096 + (b[1] as int - 0x80) * 64 + (b[2] as int - 0x80);
        if 0x800 <= cp && !(0xD800 <= cp < 0xE000) then Some((cp as char, 3)) else None
      else None
    else if 0xF0 <= b0 <= 0xF4 then
      if 4 <= |b| && IsContinuation(b[1]) && IsContinuation(b[2]) && IsContinuation(b[3]) then
        var cp := (b0 - 0xF0) * 262144 + (b[1] as int - 0x80) * 4096
                  + (b[2] as int - 0x80) * 64 + (b[3] as int - 0x80);
        if 0x1_0000 <= cp <= 0x10_FFFF then Some((cp as char, 4)) else None
      else None
    else
      None
  }

  /**
   * `b.decode("utf-8", errors="ignore")`: bytes that do not start a complete
   * encoding are dropped one at a time.  For every byte string that is a
   * prefix of a valid encoding (the only kind `truncate_utf8` decodes) this
   * drops exactly what Python's handler drops: the incomplete last character.
   */
  function DecodeIgnore(b: seq<byte>): string
    decreases |b|
  {
    if b == [] then []
    else match DecodeOne(b)
      case Some((c, n)) => [c] + DecodeIgnore(b[n..])
      case None => DecodeIgnore(b[1..])
  }

  // ---------------------------------------------------------------------
  // Facts about the encoding

  lemma {:induction false} EncodeAppend(s: string, t: string)
    ensures Encode(s + t) == Encode(s) + Encode(t)
  {
    if s == [] {
      assert s + t == t;
    } else {
      assert (s + t)[0] == s[0];
      assert (s + t)[1..] == s[1..] + t;
      EncodeAppend(s[1..], t);
    }
  }

  /** Extending a prefix by one character appends that character's encoding. */
  lemma EncodePrefixStep(s: string, k: nat)
    requires k < |s|
    ensures Encode(s[..k + 1]) == Encode(s[..k]) + EncodeChar(s[k])
  {
    assert s[..k + 1] == s[..k] + [s[k]];
    EncodeAppend(s[..k], [s[k]]);
    assert Encode([s[k]]) == EncodeChar(s[k]) + Encode([]);
  }

  /** Longer prefixes have longer encodings. */
  lemma {:induction false} EncodePrefixMonotone(s: string, j: nat, k: nat)
    requires j <= k <= |s|
    ensures |Encode(s[..j])| + (k - j) <= |Encode(s[..k])|
    decreases k - j
  {
    if j < k {
      EncodePrefixMonotone(s, j, k - 1);
      EncodePrefixStep(s, k - 1);
    }
  }

  lemma EncodeWhole(s: string)
    ensures Encode(s[..|s|]) == Encode(s)
  {
    assert s[..|s|] == s;
  }

  // ---------------------------------------------------------------------
  // Decoding inverts encoding

  /** The arithmetic heart of the round trip: one character decodes back. */
  lemma DecodeOneEncodeChar(c: char, rest: seq<byte>)
    ensures DecodeOne(EncodeChar(c) + rest) == Some((c, CharLength(c)))
  {
    var cp := c as int;
    if cp < 0x80 {
    } else if cp < 0x800 {
      DecodeTwoBytes(c, rest);
    } else if cp < 0x1_0000 {
      DecodeThreeBytes(c, rest);
    } else {
      DecodeFourBytes(c, rest);
    }
  }

  lemma DecodeTwoBytes(c: char, rest: seq<byte>)
    requires 0x80 <= c as int < 0x800
    ensures DecodeOne(EncodeChar(c) + rest) == Some((c, 2))
  {
    var cp := c as int;
    var b := EncodeChar(c) + rest;
    assert b[0] as int == 0xC0 + cp / 64 && b[1] as int == 0x80 + cp % 64;
    assert (cp / 64) * 64 + cp % 64 == cp;
  }

  lemma DecodeThreeBytes(c: char, rest: seq<byte>)
    requires 0x800 <= c as int < 0x1_0000
    ensures DecodeOne(EncodeChar(c) + rest) == Some((c, 3))
  {
    var cp := c as int;
    var b := EncodeChar(c) + rest;
    var q := cp / 64;
    assert b[0] as int == 0xE0 + cp / 4096;
    assert b[1] as int == 0x80 + q % 64 && b[2] as int == 0x80 + cp % 64;
    assert cp / 4096 == q / 64;
    assert q * 64 + cp % 64 == cp;
    assert (q / 64) * 64 + q % 64 == q;
  }

  lemma DecodeFourBytes(c: char, rest: seq<byte>)
    requires 0x1_0000 <= c as int
    ensures DecodeOne(EncodeChar(c) + rest) == Some((c, 4))
  {
    var cp := c as int;
    var b := EncodeChar(c) + rest;
    var q := cp / 64;
    var q2 := cp / 4096;
    assert b[0] as int == 0xF0 + cp / 262144;
    assert b[1] as int == 0x80 + q2 % 64;
    assert b[2] as int == 0x80 + q % 64 && b[3] as int == 0x80 + cp % 64;
    assert q2 == q / 64;
    assert cp / 262144 == q2 / 64;
    assert q * 64 + cp % 64 == cp;
    assert (q / 64) * 64 + q % 64 == q;
    assert (q2 / 64) * 64 + q2 % 64 == q2;
  }

  lemma DecodeEncodeChar(c: char, rest: seq<byte>)
    ensures DecodeIgnore(EncodeChar(c) + rest) == [c] + DecodeIgnore(rest)
  {
    var b := EncodeChar(c) + rest;
    DecodeOneEncodeChar(c, rest);
    assert b[CharLength(c)..] == rest;
  }

  /** Decoding the encoding of `s` followed by anything yields `s` first. */
  lemma {:induction false} DecodeEncodeAppend(s: string, rest: seq<byte>)
    ensures DecodeIgnore(Encode(s) + rest) == s + DecodeIgnore(rest)
  {
    if s != [] {
      calc {
        DecodeIgnore(Encode(s) + rest);
        { assert Encode(s) + rest == EncodeChar(s[0]) + (Encode(s[1..]) + rest); }
        DecodeIgnore(EncodeChar(s[0]) + (Encode(s[1..]) + rest));
        { DecodeEncodeChar(s[0], Encode(s[1..]) + rest); }
        [s[0]] + DecodeIgnore(Encode(s[1..]) + rest);
        { DecodeEncodeAppend(s[1..], rest); }
        [s[0]] + (s[1..] + DecodeIgnore(rest));
        { assert s == [s[0]] + s[1..]; }
        s + DecodeIgnore(rest);
      }
    } else {
      assert Encode(s) + rest == rest;
    }
  }

  /** Round trip: `s.encode("utf-8").decode("utf-8", errors="ignore") == s`. */
  lemma DecodeEncode(s: string)
    ensures DecodeIgnore(Encode(s)) == s
  {
    DecodeEncodeAppend(s, []);
    assert Encode(s) + [] == Encode(s);
  }

  /** A run of continuation bytes decodes to nothing. */
  lemma {:induction false} DecodeContinuations(b: seq<byte>)
    requires forall k | 0 <= k < |b| :: IsContinuation(b[k])
    ensures DecodeIgnore(b) == []
    decreases |b|
  {
    if b != [] {
      assert DecodeOne(b) == None;
      DecodeContinuations(b[1..]);
    }
  }

  /** The incomplete encoding of one character decodes to nothing. */
  lemma DecodeIncomplete(c: char, k: nat)
    requires k < CharLength(c)
    ensures DecodeIgnore(EncodeChar(c)[..k]) == []
  {
    var b := EncodeChar(c)[..k];
    if k > 0 {
      assert DecodeOne(b) == None;
      assert forall j | 0 <= j < |b[1..]| :: IsContinuation(b[1..][j]) by {
        forall j | 0 <= j < |b[1..]| ensures IsContinuation(b[1..][j]) {
          assert b[1..][j] == EncodeChar(c)[j + 1];
        }
      }
      DecodeContinuations(b[1..]);
    }
  }
}
