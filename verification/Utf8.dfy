/**
 The encoding of section 3 of RFC 3629, and why counting widths counts its bytes: it can
 be read back, it is as long as the widths say, and a character starts wherever no
 continuation byte stands.
 */
module Utf8 {
  import opened Wrappers
  import opened Text
  import opened BoundedText

  // ----- Encoding -----

  function EncodedChar(c: char): (bytes: seq<int>)
    ensures |bytes| == CharWidth(c) && forall k | 0 <= k < |bytes| :: 0 <= bytes[k] < 256
    ensures forall k | 0 < k < |bytes| :: IsContinuation(bytes[k])
    ensures !IsContinuation(bytes[0])
  {
    var code := c as int;
    if code < 0x80 then [code]
    else if code < 0x800 then [0xC0 + code / 0x40, 0x80 + code % 0x40]
    else if code < 0x1_0000 then [0xE0 + code / 0x1000, 0x80 + code / 0x40 % 0x40, 0x80 + code % 0x40]
    else [0xF0 + code / 0x4_0000, 0x80 + code / 0x1000 % 0x40, 0x80 + code / 0x40 % 0x40, 0x80 + code % 0x40]
  }

  predicate IsContinuation(byte: int)
  {
    0x80 <= byte < 0xC0
  }

  function Encoded(text: string): (bytes: seq<int>)
    ensures |bytes| == ByteLen(text)
  {
    if text == [] then [] else EncodedChar(text[0]) + Encoded(text[1..])
  }

  // ----- Reading back -----

  /** The code and the length of the first character, as its first byte announces them. */
  function FirstCode(bytes: seq<int>): (int, nat)
    requires bytes != []
  {
    if bytes[0] < 0x80 then (bytes[0], 1)
    else if bytes[0] < 0xE0 && |bytes| >= 2 then ((bytes[0] - 0xC0) * 0x40 + (bytes[1] - 0x80), 2)
    else if bytes[0] < 0xF0 && |bytes| >= 3 then
      ((bytes[0] - 0xE0) * 0x1000 + (bytes[1] - 0x80) * 0x40 + (bytes[2] - 0x80), 3)
    else if |bytes| >= 4 then
      ((bytes[0] - 0xF0) * 0x4_0000 + (bytes[1] - 0x80) * 0x1000 + (bytes[2] - 0x80) * 0x40 + (bytes[3] - 0x80), 4)
    else (-1, 1)
  }

  function Codes(bytes: seq<int>): seq<int>
    decreases |bytes|
  {
    if bytes == [] then []
    else
      var (code, length) := FirstCode(bytes);
      [code] + Codes(if length <= |bytes| then bytes[length..] else [])
  }

  lemma {:induction false} FirstIsReadBack(c: char, rest: seq<int>)
    ensures FirstCode(EncodedChar(c) + rest) == (c as int, CharWidth(c))
  {
    CharIsReadBack(c);
    var bytes := EncodedChar(c);
    assert forall k | 0 <= k < |bytes| :: (bytes + rest)[k] == bytes[k];
    hide EncodedChar, CharWidth;
  }

  lemma {:induction false} CharIsReadBack(c: char)
    ensures FirstCode(EncodedChar(c)) == (c as int, CharWidth(c))
  {
    Sextets(c as int);
  }

  lemma {:induction false} Sextets(code: nat)
    ensures code == code / 0x40 * 0x40 + code % 0x40
    ensures code / 0x40 == code / 0x1000 * 0x40 + code / 0x40 % 0x40
    ensures code / 0x1000 == code / 0x4_0000 * 0x40 + code / 0x1000 % 0x40
  {
  }

  /** No text is lost in its encoding, which is as long as the widths of the characters say. */
  lemma {:induction false} EncodingIsReadBack(text: string)
    ensures |Encoded(text)| == ByteLen(text)
    ensures |Codes(Encoded(text))| == |text|
    ensures forall k | 0 <= k < |text| :: Codes(Encoded(text))[k] == text[k] as int
  {
    if text != [] {
      EncodingIsReadBack(text[1..]);
      FirstIsReadBack(text[0], Encoded(text[1..]));
      hide EncodedChar, FirstCode, CharWidth;
      assert Encoded(text)[CharWidth(text[0])..] == Encoded(text[1..]);
      assert Codes(Encoded(text)) == [text[0] as int] + Codes(Encoded(text[1..]));
    }
  }

  /** A character starts at an offset exactly if the text ends there or no continuation byte stands there. */
  lemma {:induction false} BoundaryIffNoContinuation(text: string, index: nat)
    ensures IsCharBoundary(text, index) <==>
              index == |Encoded(text)| || (index < |Encoded(text)| && !IsContinuation(Encoded(text)[index]))
  {
    if text != [] {
      var width := CharWidth(text[0]);
      assert |EncodedChar(text[0])| == width;
      if index >= width {
        BoundaryIffNoContinuation(text[1..], index - width);
      }
      hide EncodedChar, CharWidth, IsContinuation;
      assert Encoded(text) == EncodedChar(text[0]) + Encoded(text[1..]);
      if index < width {
        assert Encoded(text)[index] == EncodedChar(text[0])[index];
      } else if index < |Encoded(text)| {
        assert Encoded(text)[index] == Encoded(text[1..])[index - width];
      }
    }
  }
}
