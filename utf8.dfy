/** Well-formed UTF-8 (Table 3-7 of the Unicode Standard, section 3.9): the
    check `String::from_utf8` makes before the Rust unpacker accepts a decoded
    name. */
module Utf8 {
  import opened Abc

  predicate InRange(b: byte, lo: int, hi: int) {
    lo <= b <= hi
  }

  /** The length of the well-formed code-unit sequence at the head of `s`, or 0
      when the head starts none. */
  function HeadLength(s: Str): (n: nat)
    requires s != []
    ensures n <= 4 && n <= |s|
  {
    var b := s[0];
    if b <= 0x7F then 1
    else if InRange(b, 0xC2, 0xDF) then
      (if |s| >= 2 && InRange(s[1], 0x80, 0xBF) then 2 else 0)
    else if InRange(b, 0xE0, 0xEF) then
      var lo := if b == 0xE0 then 0xA0 else 0x80;
      var hi := if b == 0xED then 0x9F else 0xBF;
      (if |s| >= 3 && InRange(s[1], lo, hi) && InRange(s[2], 0x80, 0xBF) then 3 else 0)
    else if InRange(b, 0xF0, 0xF4) then
      var lo := if b == 0xF0 then 0x90 else 0x80;
      var hi := if b == 0xF4 then 0x8F else 0xBF;
      (if |s| >= 4 && InRange(s[1], lo, hi) && InRange(s[2], 0x80, 0xBF) && InRange(s[3], 0x80, 0xBF)
       then 4 else 0)
    else 0
  }

  /** `s` is a sequence of well-formed code-unit sequences. */
  predicate ValidUtf8(s: Str)
    ensures ValidUtf8(s) && s != [] ==> 0 < HeadLength(s) && s[0] != 0xC0 && s[0] != 0xC1 && s[0] < 0xF5
    decreases |s|
  {
    s == [] || (HeadLength(s) > 0 && ValidUtf8(s[HeadLength(s)..]))
  }

  predicate IsAscii(s: Str) {
    forall i :: 0 <= i < |s| ==> s[i] <= 0x7F
  }

  /** ASCII text, such as "writeBytes" or a plain symbol name, is valid UTF-8. */
  lemma {:induction false} AsciiIsValid(s: Str)
    requires IsAscii(s)
    ensures ValidUtf8(s)
    decreases |s|
  {
    if s != [] {
      assert HeadLength(s) == 1;
      assert IsAscii(s[1..]) by {
        forall i | 0 <= i < |s[1..]| ensures s[1..][i] <= 0x7F {
          assert s[1..][i] == s[i + 1];
        }
      }
      AsciiIsValid(s[1..]);
    }
  }

  /** A lone continuation byte, an overlong encoding and an encoded surrogate are
      all rejected. */
  lemma RejectsMalformed()
    ensures !ValidUtf8([0x80])
    ensures !ValidUtf8([0xC0, 0x80])
    ensures !ValidUtf8([0xED, 0xA0, 0x80])
    ensures !ValidUtf8([0xF4, 0x90, 0x80, 0x80])
    ensures ValidUtf8([0xE2, 0x82, 0xAC])
  {
    var euro: Str := [0xE2, 0x82, 0xAC];
    assert HeadLength(euro) == 3;
    assert euro[3..] == [];
  }
}
