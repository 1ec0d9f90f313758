/**
 Decoding a one-time-password secret: Base32 text, read through a 32-bit accumulator.
 The decoder is measured against the bit string that the symbols write, and against the
 encoding of section 6 of RFC 4648.
 */
module Base32 {
  import opened Wrappers
  import opened Text

  const OTP_PREFIX: string := "otpauth://totp/"
  const MIN_SECRET_BYTES: nat := 10
  const TWO_POW_32: nat := 0x1_0000_0000

  datatype SecretError = EmptySecret | InvalidSymbol | SecretTooShort

  // ----- Bit strings -----

  function Pow2(exponent: nat): (power: nat)
    ensures power > 0
  {
    if exponent == 0 then 1 else 2 * Pow2(exponent - 1)
  }

  /** The low `width` bits of a number, the most significant one first. */
  function BitsOf(number: nat, width: nat): (bits: seq<bool>)
    ensures |bits| == width
  {
    if width == 0 then [] else BitsOf(number / 2, width - 1) + [number % 2 == 1]
  }

  function NumberOf(bits: seq<bool>): nat
  {
    if bits == [] then 0 else 2 * NumberOf(bits[..|bits| - 1]) + if bits[|bits| - 1] then 1 else 0
  }

  /** The bits of all the digits, `width` to a digit. */
  function BitString(digits: seq<nat>, width: nat): seq<bool>
  {
    if digits == [] then [] else BitsOf(digits[0], width) + BitString(digits[1..], width)
  }

  /** Reads bits as digits of `width` bits each; a rest that does not fill one is dropped. */
  function Chopped(bits: seq<bool>, width: nat): seq<nat>
    requires width > 0
  {
    if |bits| < width then [] else [NumberOf(bits[..width])] + Chopped(bits[width..], width)
  }

  predicate AreDigits(digits: seq<nat>, width: nat)
  {
    forall k :: 0 <= k < |digits| ==> digits[k] < Pow2(width)
  }

  lemma {:induction false} NumberOfBits(number: nat, width: nat)
    requires number < Pow2(width)
    ensures NumberOf(BitsOf(number, width)) == number
  {
    if width > 0 {
      NumberOfBits(number / 2, width - 1);
      assert BitsOf(number, width)[..width - 1] == BitsOf(number / 2, width - 1);
    }
  }

  lemma {:induction false} BitsOfNumber(bits: seq<bool>)
    ensures BitsOf(NumberOf(bits), |bits|) == bits
    ensures NumberOf(bits) < Pow2(|bits|)
  {
    if bits != [] {
      BitsOfNumber(bits[..|bits| - 1]);
    }
  }

  lemma {:induction false} Reassociate<T>(a: seq<T>, b: seq<T>, c: seq<T>)
    ensures a + (b + c) == (a + b) + c
  {
  }

  lemma {:induction false} BitStringPush(digits: seq<nat>, digit: nat, width: nat)
    ensures BitString(digits + [digit], width) == BitString(digits, width) + BitsOf(digit, width)
  {
    hide BitsOf;
    if digits == [] {
      assert BitString([digit], width) == BitsOf(digit, width) + BitString([], width);
    } else {
      assert (digits + [digit])[1..] == digits[1..] + [digit];
      BitStringPush(digits[1..], digit, width);
      Reassociate(BitsOf(digits[0], width), BitString(digits[1..], width), BitsOf(digit, width));
    }
  }

  /** Digits are read back from their bits, whatever shorter rest follows. */
  lemma {:induction false} ChoppedBitString(digits: seq<nat>, width: nat, rest: seq<bool>)
    requires AreDigits(digits, width) && |rest| < width
    ensures Chopped(BitString(digits, width) + rest, width) == digits
  {
    hide BitsOf, NumberOf, Pow2;
    if digits == [] {
      assert BitString(digits, width) + rest == rest;
    } else {
      ChoppedBitString(digits[1..], width, rest);
      NumberOfBits(digits[0], width);
      Reassociate(BitsOf(digits[0], width), BitString(digits[1..], width), rest);
      ChopFirst(BitsOf(digits[0], width), BitString(digits[1..], width) + rest, width);
    }
  }

  lemma {:induction false} ChopFirst(first: seq<bool>, others: seq<bool>, width: nat)
    requires |first| == width > 0
    ensures Chopped(first + others, width) == [NumberOf(first)] + Chopped(others, width)
  {
    hide NumberOf;
    assert (first + others)[..width] == first && (first + others)[width..] == others;
  }

  /** Bits that fill their digits are kept by them. */
  lemma {:induction false} BitStringChopped(bits: seq<bool>, width: nat, count: nat)
    requires width > 0 && |bits| == count * width
    ensures var digits := Chopped(bits, width);
            |digits| == count && AreDigits(digits, width) && BitString(digits, width) == bits
  {
    hide NumberOf, BitsOf;
    if count > 0 {
      var first, others := bits[..width], bits[width..];
      assert |others| == (count - 1) * width;
      BitStringChopped(others, width, count - 1);
      BitsOfNumber(first);
      assert first + others == bits;
    }
  }

  // ----- Shifts -----

  /** `number >> count`. */
  function Shr(number: nat, count: nat): nat
  {
    if count == 0 then number else Shr(number / 2, count - 1)
  }

  lemma {:induction false} BitsCut(number: nat, width: nat, low: nat)
    ensures BitsOf(number, width + low) == BitsOf(Shr(number, low), width) + BitsOf(number, low)
  {
    if low > 0 {
      BitsCut(number / 2, width, low - 1);
    }
  }

  lemma {:induction false} HalfSum(x: nat, y: nat, half: nat)
    ensures (x + y * (2 * half)) / 2 == x / 2 + y * half && (x + y * (2 * half)) % 2 == x % 2
  {
    assert y * (2 * half) == 2 * (y * half);
  }

  lemma {:induction false} HighBitsDoNotShow(x: nat, y: nat, high: nat, width: nat)
    requires width <= high
    ensures BitsOf(x + y * Pow2(high), width) == BitsOf(x, width)
  {
    if width > 0 {
      HalfSum(x, y, Pow2(high - 1));
      HighBitsDoNotShow(x / 2, y, high - 1, width - 1);
    }
  }

  /** `(bits << 5) | value` in 32 bits. */
  function ShiftIn(bits: nat, value: nat): nat
  {
    bits * 32 % TWO_POW_32 + value
  }

  /** What a shift pushes out of the accumulator is not missed. */
  lemma {:induction false} ShiftInAppends(bits: nat, value: nat, width: nat)
    requires value < 32 && width < 8
    ensures BitsOf(ShiftIn(bits, value), width + 5) == BitsOf(bits, width) + BitsOf(value, 5)
  {
    hide BitsOf, Shr, Pow2;
    var kept := bits % 0x800_0000;
    assert ShiftIn(bits, value) == kept * 32 + value;
    BitsCut(kept * 32 + value, width, 5);
    ShrFive(kept, value);
    LowestFive(kept, value);
    LowestBits(bits, width);
  }

  lemma {:induction false} ShrFive(kept: nat, value: nat)
    requires value < 32
    ensures Shr(kept * 32 + value, 5) == kept
  {
    var n := kept * 32 + value;
    assert Shr(n, 5) == Shr(n / 2, 4) == Shr(n / 4, 3) == Shr(n / 8, 2) == Shr(n / 16, 1) == Shr(n / 32, 0);
  }

  lemma {:induction false} LowestFive(kept: nat, value: nat)
    ensures BitsOf(kept * 32 + value, 5) == BitsOf(value, 5)
  {
    ConstantPowers();
    HighBitsDoNotShow(value, kept, 5, 5);
  }

  lemma {:induction false} LowestBits(number: nat, width: nat)
    requires width <= 27
    ensures BitsOf(number % 0x800_0000, width) == BitsOf(number, width)
  {
    hide BitsOf, Pow2;
    ConstantPowers();
    HighBitsDoNotShow(number % 0x800_0000, number / 0x800_0000, 27, width);
  }

  lemma {:induction false} ConstantPowers()
    ensures Pow2(5) == 32 && Pow2(8) == 256 && Pow2(27) == 0x800_0000
  {
    assert Pow2(10) == 1024;
    assert Pow2(19) == 512 * Pow2(10);
    assert Pow2(27) == 256 * Pow2(19);
  }

  lemma {:induction false} LowByte(number: nat)
    ensures BitsOf(number % 256, 8) == BitsOf(number, 8)
  {
    hide BitsOf, Pow2;
    ConstantPowers();
    HighBitsDoNotShow(number % 256, number / 256, 8, 8);
  }

  // ----- What the decoder is to compute -----

  predicate IsSymbol(c: char)
  {
    'A' <= c <= 'Z' || '2' <= c <= '7'
  }

  function SymbolValue(c: char): (value: nat)
    requires IsSymbol(c)
    ensures value < 32
  {
    if 'A' <= c <= 'Z' then c as int - 'A' as int else c as int - '2' as int + 26
  }

  predicate AreSymbols(s: string)
  {
    forall k :: 0 <= k < |s| ==> IsSymbol(s[k])
  }

  function Values(s: string): (values: seq<nat>)
    requires AreSymbols(s)
    ensures |values| == |s| && AreDigits(values, 5)
  {
    ConstantPowers();
    seq(|s|, k requires 0 <= k < |s| => SymbolValue(s[k]))
  }

  /** The bytes that the bits of the symbols fill; up to seven bits at the end are left over. */
  function BytesFor(values: seq<nat>): seq<nat>
  {
    Chopped(BitString(values, 5), 8)
  }

  function StripPrefixes(s: string): string
  {
    if OTP_PREFIX <= s then StripPrefixes(s[|OTP_PREFIX|..]) else s
  }

  predicate IsSeparator(c: char)
  {
    IsWhitespace(c) || c == '-' || c == '='
  }

  function Upper(c: char): char
  {
    if 'a' <= c <= 'z' then c - 'a' + 'A' else c
  }

  function Compact(s: string): string
  {
    if s == [] then [] else (if IsSeparator(s[0]) then [] else [Upper(s[0])]) + Compact(s[1..])
  }

  function Normalized(secret: string): string
  {
    Compact(StripPrefixes(Trim(secret)))
  }

  function Decoded(secret: string): Result<seq<nat>, SecretError>
  {
    var normalized := Normalized(secret);
    if normalized == [] then Err(EmptySecret)
    else if !AreSymbols(normalized) then Err(InvalidSymbol)
    else if 5 * |normalized| / 8 < MIN_SECRET_BYTES then Err(SecretTooShort)
    else Ok(BytesFor(Values(normalized)))
  }

  // ----- The decoder -----

  method DecodeBase32Secret(secret: string) returns (r: Result<seq<nat>, SecretError>)
    ensures r == Decoded(secret)
  {
    hide BitString, BitsOf, Chopped, Compact, Pow2, Shr, ShiftIn;
    var normalized := Normalized(secret);
    if normalized == [] {
      return Err(EmptySecret);
    }
    var bits, bitCount := 0, 0;
    var output: seq<nat> := [];
    var k := 0;
    NothingRead();
    while k < |normalized|
      invariant k <= |normalized| && AreSymbols(normalized[..k])
      invariant bitCount < 8 && 5 * k == 8 * |output| + bitCount
      invariant HasRead(Values(normalized[..k]), output, bits, bitCount)
    {
      var c := normalized[k];
      if !IsSymbol(c) {
        return Err(InvalidSymbol);
      }
      var value := SymbolValue(c);
      ReadSymbol(Values(normalized[..k]), output, bits, bitCount, value);
      assert Values(normalized[..k + 1]) == Values(normalized[..k]) + [value];
      bits := ShiftIn(bits, value);
      bitCount := bitCount + 5;
      k := k + 1;
      while bitCount >= 8
        invariant bitCount <= 12 && 5 * k == 8 * |output| + bitCount
        invariant HasRead(Values(normalized[..k]), output, bits, bitCount)
      {
        bitCount := bitCount - 8;
        WriteByte(Values(normalized[..k]), output, bits, bitCount);
        output := output + [Shr(bits, bitCount) % 256];
      }
    }
    assert normalized[..k] == normalized;
    AllRead(Values(normalized), output, bits, bitCount);
    if |output| < MIN_SECRET_BYTES {
      return Err(SecretTooShort);
    }
    r := Ok(output);
  }

  /** The bits of the symbols read so far are those written out and the low ones of the accumulator. */
  ghost predicate HasRead(values: seq<nat>, output: seq<nat>, bits: nat, bitCount: nat)
  {
    && AreDigits(output, 8)
    && BitString(values, 5) == BitString(output, 8) + BitsOf(bits, bitCount)
  }

  lemma {:induction false} NothingRead()
    ensures HasRead([], [], 0, 0)
  {
  }

  lemma {:induction false} ReadSymbol(values: seq<nat>, output: seq<nat>, bits: nat, bitCount: nat, value: nat)
    requires HasRead(values, output, bits, bitCount) && bitCount < 8 && value < 32
    ensures HasRead(values + [value], output, ShiftIn(bits, value), bitCount + 5)
  {
    hide BitString, BitsOf, ShiftIn;
    BitStringPush(values, value, 5);
    ShiftInAppends(bits, value, bitCount);
    Reassociate(BitString(output, 8), BitsOf(bits, bitCount), BitsOf(value, 5));
  }

  lemma {:induction false} WriteByte(values: seq<nat>, output: seq<nat>, bits: nat, bitCount: nat)
    requires HasRead(values, output, bits, bitCount + 8)
    ensures HasRead(values, output + [Shr(bits, bitCount) % 256], bits, bitCount)
  {
    hide BitString, BitsOf, Shr, Pow2;
    ConstantPowers();
    var byte := Shr(bits, bitCount) % 256;
    BitsCut(bits, 8, bitCount);
    LowByte(Shr(bits, bitCount));
    BitStringPush(output, byte, 8);
    Reassociate(BitString(output, 8), BitsOf(byte, 8), BitsOf(bits, bitCount));
  }

  lemma {:induction false} AllRead(values: seq<nat>, output: seq<nat>, bits: nat, bitCount: nat)
    requires HasRead(values, output, bits, bitCount) && bitCount < 8
    ensures output == BytesFor(values)
  {
    ChoppedBitString(output, 8, BitsOf(bits, bitCount));
  }

  /**
   A decoded secret is as long as whole bytes fit, and its bits are those of the symbols,
   less a rest of at most seven.
   */
  lemma {:induction false} DecodedBits(secret: string)
    requires Decoded(secret).Ok?
    ensures var bytes, symbols := Decoded(secret).value, Normalized(secret);
            && |bytes| == 5 * |symbols| / 8
            && AreDigits(bytes, 8)
            && BitString(bytes, 8) <= BitString(Values(symbols), 5)
  {
    hide Normalized;
    var values := Values(Normalized(secret));
    var bits := BitString(values, 5);
    BitStringLength5(values);
    var whole := |bits| / 8 * 8;
    BitStringChopped(bits[..whole], 8, |bits| / 8);
    ChoppedBitString(Chopped(bits[..whole], 8), 8, bits[whole..]);
    assert bits == bits[..whole] + bits[whole..];
  }

  lemma {:induction false} BitStringLength5(digits: seq<nat>)
    ensures |BitString(digits, 5)| == 5 * |digits|
  {
    if digits != [] {
      BitStringLength5(digits[1..]);
    }
  }

  lemma {:induction false} BitStringLength8(digits: seq<nat>)
    ensures |BitString(digits, 8)| == 8 * |digits|
  {
    if digits != [] {
      BitStringLength8(digits[1..]);
    }
  }

  // ----- The encoding of RFC 4648, section 6 -----

  function Letter(value: nat): (c: char)
    requires value < 32
    ensures IsSymbol(c) && SymbolValue(c) == value
  {
    if value < 26 then 'A' + value as char else '2' + (value - 26) as char
  }

  function Letters(values: seq<nat>): (s: string)
    requires AreDigits(values, 5)
    ensures AreSymbols(s) && Values(s) == values
  {
    ConstantPowers();
    seq(|values|, k requires 0 <= k < |values| => Letter(values[k]))
  }

  function Repeat<T>(item: T, count: nat): seq<T>
  {
    seq(count, _ => item)
  }

  /** The bits of the bytes, filled up with zero bits to a whole number of groups of five. */
  function PaddedBits(bytes: seq<nat>): (bits: seq<bool>)
    ensures |bits| % 5 == 0
  {
    var bits := BitString(bytes, 8);
    bits + Repeat(false, (5 - |bits| % 5) % 5)
  }

  /** One letter for each group of five bits, filled up with `=` to a multiple of eight characters. */
  function Encode(bytes: seq<nat>): string
  {
    var values := Chopped(PaddedBits(bytes), 5);
    BitStringChopped(PaddedBits(bytes), 5, |PaddedBits(bytes)| / 5);
    Letters(values) + Repeat('=', (8 - |values| % 8) % 8)
  }

  lemma {:induction false} CompactLetters(letters: string, padding: nat)
    requires AreSymbols(letters)
    ensures Compact(letters + Repeat('=', padding)) == letters
    decreases |letters| + padding
  {
    var s := letters + Repeat('=', padding);
    if letters != [] {
      assert s[1..] == letters[1..] + Repeat('=', padding);
      CompactLetters(letters[1..], padding);
    } else if padding > 0 {
      assert s[1..] == [] + Repeat('=', padding - 1);
      CompactLetters([], padding - 1);
    }
  }

  lemma {:induction false} NormalizedEncoding(letters: string, padding: nat)
    requires AreSymbols(letters)
    ensures Normalized(letters + Repeat('=', padding)) == letters
  {
    var s := letters + Repeat('=', padding);
    TrimKeeps(s);
    assert !(OTP_PREFIX <= s) by {
      assert |OTP_PREFIX| > 0 && OTP_PREFIX[0] == 'o';
      assert s == [] || s[0] != 'o';
    }
    assert StripPrefixes(s) == s;
    CompactLetters(letters, padding);
  }

  lemma {:induction false} EncodedSymbols(bytes: seq<nat>)
    requires AreDigits(bytes, 8)
    ensures var symbols := Normalized(Encode(bytes));
            && AreSymbols(symbols)
            && 5 * |symbols| / 8 == |bytes| && (symbols == [] <==> bytes == [])
            && BytesFor(Values(symbols)) == bytes
  {
    hide Normalized, Chopped, BitString, Pow2;
    var padded := PaddedBits(bytes);
    var values := Chopped(padded, 5);
    BitStringChopped(padded, 5, |padded| / 5);
    NormalizedEncoding(Letters(values), (8 - |values| % 8) % 8);
    BitStringLength8(bytes);
    var rest := Repeat(false, (5 - 8 * |bytes| % 5) % 5);
    assert padded == BitString(bytes, 8) + rest;
    ChoppedBitString(bytes, 8, rest);
  }

  /** The decoder inverts the encoding of every secret of at least ten bytes, and refuses the shorter ones. */
  lemma {:induction false} DecodingInvertsEncoding(bytes: seq<nat>)
    requires AreDigits(bytes, 8)
    ensures Decoded(Encode(bytes)) ==
              if bytes == [] then Err(EmptySecret)
              else if |bytes| < MIN_SECRET_BYTES then Err(SecretTooShort)
              else Ok(bytes)
  {
    hide Normalized, Encode, BytesFor, AreSymbols, Values;
    EncodedSymbols(bytes);
  }
}
