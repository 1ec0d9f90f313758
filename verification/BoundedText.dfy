/** UTF-8-safe truncation: long tool output, and the captured diagnostics of a subprocess. */
module BoundedText {
  import opened Text
  import opened BoundedSuffix

  const MAX_EXTERNAL_TOOL_CONTENT_BYTES: nat := 128 * 1024
  const EXTERNAL_TOOL_CONTENT_TAIL_BYTES: nat := 32 * 1024
  const APP_SERVER_STDERR_MAX_BYTES: nat := 32 * 1024

  // ----- Character boundaries -----

  predicate IsCharBoundary(text: string, index: nat)
  {
    index == 0 || (text != [] && CharWidth(text[0]) <= index && IsCharBoundary(text[1..], index - CharWidth(text[0])))
  }

  /** The number of characters in front of a boundary. */
  function CharsBefore(text: string, index: nat): (chars: nat)
    requires IsCharBoundary(text, index)
    ensures chars <= |text|
  {
    if index == 0 then 0 else 1 + CharsBefore(text[1..], index - CharWidth(text[0]))
  }

  /** The boundaries are the byte lengths of the prefixes. */
  lemma {:induction false} BoundaryIsPrefix(text: string, index: nat)
    requires IsCharBoundary(text, index)
    ensures ByteLen(text[..CharsBefore(text, index)]) == index
  {
    if index > 0 {
      var rest, chars := index - CharWidth(text[0]), CharsBefore(text, index);
      BoundaryIsPrefix(text[1..], rest);
      assert text[..chars][1..] == text[1..][..chars - 1];
    }
  }

  /** Some boundary lies at most three bytes below any offset in the text. */
  lemma {:induction false} BoundaryIsNear(text: string, index: nat) returns (boundary: nat)
    requires index <= ByteLen(text)
    ensures boundary <= index <= boundary + 3 && IsCharBoundary(text, boundary)
  {
    if text == [] || index < CharWidth(text[0]) {
      boundary := 0;
    } else {
      boundary := BoundaryIsNear(text[1..], index - CharWidth(text[0]));
      boundary := boundary + CharWidth(text[0]);
    }
  }

  method FloorCharBoundary(text: string, index: nat) returns (floor: nat)
    ensures IsCharBoundary(text, floor) && floor <= index && floor <= ByteLen(text)
    ensures forall other | floor < other <= index && other <= ByteLen(text) :: !IsCharBoundary(text, other)
    ensures index <= ByteLen(text) ==> index <= floor + 3
  {
    floor := if index < ByteLen(text) then index else ByteLen(text);
    ghost var near := BoundaryIsNear(text, floor);
    while floor > 0 && !IsCharBoundary(text, floor)
      invariant near <= floor <= index && floor <= ByteLen(text)
      invariant forall other | floor < other <= index && other <= ByteLen(text) :: !IsCharBoundary(text, other)
    {
      floor := floor - 1;
    }
  }

  // ----- Tool output -----

  function Marker(stated: nat): string
  {
    "\n\n[tool output truncated: " + Decimal(stated) + " bytes omitted]\n\n"
  }

  function PowerOfTen(exponent: nat): nat
  {
    if exponent == 0 then 1 else 10 * PowerOfTen(exponent - 1)
  }

  lemma {:induction false} DecimalLength(n: nat, digits: nat)
    requires n < PowerOfTen(digits) && digits > 0
    ensures |Decimal(n)| <= digits
    decreases digits
  {
    if n >= 10 {
      assert PowerOfTen(1) == 10;
      DecimalLength(n / 10, digits - 1);
    }
  }

  lemma {:induction false} TwentyDigitsSuffice()
    ensures PowerOfTen(20) > 0x1_0000_0000_0000_0000
  {
    assert PowerOfTen(4) == 10_000;
    assert PowerOfTen(8) == 100_000_000;
    assert PowerOfTen(12) == 1_000_000_000_000;
    assert PowerOfTen(16) == 10_000_000_000_000_000;
    assert PowerOfTen(20) == 100_000_000_000_000_000_000;
  }

  /** A 64-bit count takes at most twenty digits, so the marker is short. */
  lemma {:induction false} MarkerIsShort(stated: nat)
    requires stated < 0x1_0000_0000_0000_0000
    ensures 3 < ByteLen(Marker(stated)) <= 300
  {
    hide ByteLen, PowerOfTen, Decimal;
    TwentyDigitsSuffice();
    DecimalLength(stated, 20);
    ByteLenBounds(Marker(stated));
  }

  /** The count the marker states: bytes before the tail beyond the head's full share. */
  function StatedOmission(tailStart: nat): nat
  {
    var headLimit := MAX_EXTERNAL_TOOL_CONTENT_BYTES - EXTERNAL_TOOL_CONTENT_TAIL_BYTES;
    if tailStart >= headLimit then tailStart - headLimit else 0
  }

  /** What truncation keeps: a prefix, the marker and a suffix, in whole characters. */
  ghost predicate IsTruncation(text: string, result: string, headChars: nat, tailChars: nat)
  {
    && headChars < tailChars <= |text|
    && var stated := StatedOmission(ByteLen(text[..tailChars]));
       var marker := "\n\n[tool output truncated: " + Decimal(stated) + " bytes omitted]\n\n";
       && result == text[..headChars] + marker + text[tailChars..]
       && EXTERNAL_TOOL_CONTENT_TAIL_BYTES <= ByteLen(text[tailChars..]) <= EXTERNAL_TOOL_CONTENT_TAIL_BYTES + 3
       && ByteLen(result) <= MAX_EXTERNAL_TOOL_CONTENT_BYTES + 3
       && stated + ByteLen(marker) - 2 <= ByteLen(text[headChars..tailChars]) <= stated + ByteLen(marker) + 3
  }

  /**
   Text of at most 128 KiB is kept; longer text keeps a beginning and an end that do
   not overlap. The count in the marker is less than the bytes really left out, by the
   marker's own length give or take three. The length of a text fits 64 bits.
   */
  method BoundedToolText(sanitized: string) returns (result: string, ghost headChars: nat, ghost tailChars: nat)
    requires ByteLen(sanitized) < 0x1_0000_0000_0000_0000
    ensures ByteLen(sanitized) <= MAX_EXTERNAL_TOOL_CONTENT_BYTES ==> result == sanitized
    ensures ByteLen(sanitized) > MAX_EXTERNAL_TOOL_CONTENT_BYTES ==>
          IsTruncation(sanitized, result, headChars, tailChars)
  {
    headChars, tailChars := 0, 0;
    if ByteLen(sanitized) <= MAX_EXTERNAL_TOOL_CONTENT_BYTES {
      return sanitized, headChars, tailChars;
    }
    var tailStart := FloorCharBoundary(sanitized, ByteLen(sanitized) - EXTERNAL_TOOL_CONTENT_TAIL_BYTES);
    var headLimit := MAX_EXTERNAL_TOOL_CONTENT_BYTES - EXTERNAL_TOOL_CONTENT_TAIL_BYTES;
    var stated := StatedOmission(tailStart);
    var marker := Marker(stated);
    MarkerIsShort(stated);
    var headBudget := if ByteLen(marker) <= headLimit then headLimit - ByteLen(marker) else 0;
    var headEnd := FloorCharBoundary(sanitized, headBudget);
    var head, tail := CharsBefore(sanitized, headEnd), CharsBefore(sanitized, tailStart);
    BoundaryIsPrefix(sanitized, headEnd);
    BoundaryIsPrefix(sanitized, tailStart);
    result := sanitized[..head] + marker + sanitized[tail..];
    headChars, tailChars := head, tail;
    TruncationFits(sanitized, head, tail, stated);
  }

  lemma {:induction false} TruncationFits(text: string, head: nat, tail: nat, stated: nat)
    requires head <= |text| && tail <= |text| && ByteLen(text) > MAX_EXTERNAL_TOOL_CONTENT_BYTES
    requires 3 < ByteLen(Marker(stated)) <= 300
    requires var tailStart := ByteLen(text[..tail]);
             var budget := MAX_EXTERNAL_TOOL_CONTENT_BYTES - EXTERNAL_TOOL_CONTENT_TAIL_BYTES - ByteLen(Marker(stated));
             && tailStart <= ByteLen(text) - EXTERNAL_TOOL_CONTENT_TAIL_BYTES <= tailStart + 3
             && stated == StatedOmission(tailStart)
             && ByteLen(text[..head]) <= budget <= ByteLen(text[..head]) + 3
    ensures IsTruncation(text, text[..head] + Marker(stated) + text[tail..], head, tail)
  {
    assert Marker(stated) == "\n\n[tool output truncated: " + Decimal(stated) + " bytes omitted]\n\n";
    hide Marker, ByteLen, Decimal;
    TruncationLengths(text, head, tail, Marker(stated));
  }

  lemma {:induction false} ByteLenPrefixMonotone(text: string, a: nat, b: nat)
    requires a <= b <= |text|
    ensures ByteLen(text[..a]) <= ByteLen(text[..b])
    ensures ByteLen(text[..a]) == ByteLen(text[..b]) ==> a == b
  {
    ByteLenAppend(text[..a], text[a..b]);
    assert text[..a] + text[a..b] == text[..b];
    ByteLenBounds(text[a..b]);
  }

  lemma {:induction false} TruncationLengths(text: string, head: nat, tail: nat, marker: string)
    requires head <= |text| && tail <= |text| && ByteLen(text[..head]) < ByteLen(text[..tail])
    ensures head < tail
    ensures ByteLen(text) == ByteLen(text[..tail]) + ByteLen(text[tail..])
    ensures ByteLen(text[..tail]) == ByteLen(text[..head]) + ByteLen(text[head..tail])
    ensures ByteLen(text[..head] + marker + text[tail..])
          == ByteLen(text[..head]) + ByteLen(marker) + ByteLen(text[tail..])
  {
    if tail <= head {
      ByteLenPrefixMonotone(text, tail, head);
      assert false;
    }
    assert text[..tail] + text[tail..] == text;
    ByteLenAppend(text[..tail], text[tail..]);
    assert text[..head] + text[head..tail] == text[..tail];
    ByteLenAppend(text[..head], text[head..tail]);
    ByteLenAppend(text[..head] + marker, text[tail..]);
    ByteLenAppend(text[..head], marker);
  }

  // ----- Captured diagnostics -----

  const CHAR_BYTES := (c: char) => CharWidth(c)

  lemma {:induction false} ByteLenIsWeight(text: string)
    ensures Weight(text, CHAR_BYTES) == ByteLen(text)
  {
    if text != [] {
      ByteLenIsWeight(text[1..]);
    }
  }

  class CapturedStderr {
    var output: string
    /** Everything the subprocess has written. */
    ghost var received: string

    /** The capture is the longest end of the diagnostics that fits, in whole characters. */
    ghost predicate Valid()
      reads this
    {
      output == LongestFitting(received, CHAR_BYTES, APP_SERVER_STDERR_MAX_BYTES)
    }

    constructor ()
      ensures Valid() && received == ""
    {
      output, received := "", "";
    }

    method AppendBounded(chunk: string)
      requires Valid()
      modifies this
      ensures Valid() && received == old(received) + chunk
    {
      BoundingIsIncremental(received, chunk, CHAR_BYTES, APP_SERVER_STDERR_MAX_BYTES);
      received := received + chunk;
      output := output + chunk;
      ByteLenIsWeight(output);
      if ByteLen(output) <= APP_SERVER_STDERR_MAX_BYTES {
        return;
      }
      var overflow := ByteLen(output) - APP_SERVER_STDERR_MAX_BYTES;
      var trimAt := FirstCharAtOrAfter(output, overflow);
      output := output[trimAt..];
    }
  }

  /**
   The search for the first character that starts at or after the overflow. There is
   one, since the limit is wider than a character.
   */
  method FirstCharAtOrAfter(output: string, overflow: nat) returns (chars: nat)
    requires ByteLen(output) == overflow + APP_SERVER_STDERR_MAX_BYTES
    ensures chars < |output| && ByteLen(output[..chars]) >= overflow
    ensures output[chars..] == LongestFitting(output, CHAR_BYTES, APP_SERVER_STDERR_MAX_BYTES)
  {
    chars := 0;
    var index := 0;
    while index < overflow
      invariant chars < |output| && index == ByteLen(output[..chars])
      invariant LongestFitting(output[chars..], CHAR_BYTES, APP_SERVER_STDERR_MAX_BYTES)
             == LongestFitting(output, CHAR_BYTES, APP_SERVER_STDERR_MAX_BYTES)
      decreases |output| - chars
    {
      RestWeighs(output, chars);
      ByteLenPush(output[..chars], output[chars]);
      assert output[..chars + 1] == output[..chars] + [output[chars]];
      assert output[chars..][1..] == output[chars + 1..];
      index := index + CharWidth(output[chars]);
      chars := chars + 1;
      assert output[..|output|] == output;
    }
    RestWeighs(output, chars);
  }

  lemma {:induction false} RestWeighs(text: string, chars: nat)
    requires chars <= |text|
    ensures Weight(text[chars..], CHAR_BYTES) == ByteLen(text) - ByteLen(text[..chars])
  {
    ByteLenIsWeight(text[chars..]);
    ByteLenAppend(text[..chars], text[chars..]);
    assert text[..chars] + text[chars..] == text;
  }
}
