/** What a secret decodes to, told in its characters and in numbers. */
module Base32Meaning {
  import opened Wrappers
  import opened Text
  import opened Base32

  // ----- The symbols of a secret -----

  /** White space, hyphens and padding only separate symbols. */
  predicate IsSkipped(c: char)
  {
    IsWhitespace(c) || c in {'-', '='}
  }

  /** The same character, or its capital. */
  predicate IsRead(written: char, c: char)
  {
    if 'a' <= written <= 'z' then 'A' <= c <= 'Z' && c as int + 32 == written as int else c == written
  }

  /** The text is made of these characters, at these positions, and of what is skipped. */
  ghost predicate IsSpelling(written: string, text: string, positions: seq<nat>)
  {
    && |positions| == |text|
    && (forall k | 0 <= k < |text| :: positions[k] < |written| && IsRead(written[positions[k]], text[k]))
    && (forall j, k | 0 <= j < k < |positions| :: positions[j] < positions[k])
    && (forall i | 0 <= i < |written| :: i in positions <==> !IsSkipped(written[i]))
  }

  lemma {:induction false} CompactIsSpelled(written: string) returns (positions: seq<nat>)
    ensures IsSpelling(written, Compact(written), positions)
  {
    if written == [] {
      positions := [];
    } else {
      var n := |written| - 1;
      positions := CompactIsSpelled(written[..n]);
      CompactPush(written[..n], written[n]);
      assert written[..n] + [written[n]] == written;
      var text := Compact(written[..n]);
      hide Compact, IsSpelling, IsSkipped, IsRead, Upper;
      if IsSkipped(written[n]) {
        assert text + [] == text;
        SkippedAddsNothing(written, text, positions);
      } else {
        UpperIsRead(written[n]);
        OneMoreIsRead(written, text, positions, Upper(written[n]));
        positions := positions + [n];
      }
    }
  }

  lemma {:induction false} CompactPush(written: string, c: char)
    ensures Compact(written + [c]) == Compact(written) + if IsSkipped(c) then [] else [Upper(c)]
  {
    if written == [] {
      assert ([] + [c])[1..] == [];
    } else {
      assert (written + [c])[1..] == written[1..] + [c];
      CompactPush(written[1..], c);
      var first := if IsSeparator(written[0]) then [] else [Upper(written[0])];
      Reassociate(first, Compact(written[1..]), if IsSkipped(c) then [] else [Upper(c)]);
    }
  }

  lemma {:induction false} UpperIsRead(c: char)
    ensures IsRead(c, Upper(c))
  {
  }

  lemma {:induction false} SkippedAddsNothing(written: string, text: string, positions: seq<nat>)
    requires written != [] && IsSpelling(written[..|written| - 1], text, positions)
    requires IsSkipped(written[|written| - 1])
    ensures IsSpelling(written, text, positions)
  {
    hide IsSkipped, IsRead;
    var n := |written| - 1;
    forall i | 0 <= i < |written|
      ensures i in positions <==> !IsSkipped(written[i])
    {
      assert i < n ==> written[..n][i] == written[i];
    }
  }

  lemma {:induction false} OneMoreIsRead(written: string, text: string, positions: seq<nat>, c: char)
    requires written != [] && IsSpelling(written[..|written| - 1], text, positions)
    requires !IsSkipped(written[|written| - 1]) && IsRead(written[|written| - 1], c)
    ensures IsSpelling(written, text + [c], positions + [|written| - 1])
  {
    hide IsSkipped, IsRead;
    var n := |written| - 1;
    forall i | 0 <= i < |written|
      ensures i in positions + [n] <==> !IsSkipped(written[i])
    {
      assert i < n ==> written[..n][i] == written[i];
    }
    assert forall k | 0 <= k < |positions| :: written[..n][positions[k]] == written[positions[k]];
  }

  function Prefixes(count: nat): string
  {
    if count == 0 then "" else "otpauth://totp/" + Prefixes(count - 1)
  }

  lemma {:induction false} PrefixesAreStripped(s: string) returns (count: nat)
    ensures s == Prefixes(count) + StripPrefixes(s) && !("otpauth://totp/" <= StripPrefixes(s))
  {
    count := 0;
    if OTP_PREFIX <= s {
      var rest := s[|OTP_PREFIX|..];
      assert s == OTP_PREFIX + rest;
      count := PrefixesAreStripped(rest);
      PrefixPush(count, rest, StripPrefixes(rest));
      count := count + 1;
    }
    assert s == "" + s;
  }

  lemma {:induction false} PrefixPush(count: nat, rest: string, stripped: string)
    requires rest == Prefixes(count) + stripped
    ensures "otpauth://totp/" + rest == Prefixes(count + 1) + stripped
  {
    Reassociate("otpauth://totp/", Prefixes(count), stripped);
  }

  // ----- The number of a secret -----

  const ALPHABET: string := "ABCDEFGHIJKLMNOPQRSTUVWXYZ234567"

  /** The place of the symbol in the alphabet is what it stands for. */
  lemma {:induction false} SymbolsAreThoseOfTheAlphabet(c: char)
    ensures IsSymbol(c) <==> c in ALPHABET
    ensures IsSymbol(c) ==> ALPHABET[SymbolValue(c)] == c
    ensures |ALPHABET| == 32 && forall i, j | 0 <= i < j < 32 :: ALPHABET[i] != ALPHABET[j]
  {
    forall i | 0 <= i < 32
      ensures ALPHABET[i] as int == if i < 26 then 65 + i else 24 + i
    {
    }
  }

  /** The number that the digits write, the most significant one first. */
  function ToNumber(digits: seq<nat>, base: nat): nat
  {
    if digits == [] then 0 else ToNumber(digits[..|digits| - 1], base) * base + digits[|digits| - 1]
  }

  lemma {:induction false} NumberOfPush(bits: seq<bool>, bit: bool)
    ensures NumberOf(bits + [bit]) == 2 * NumberOf(bits) + if bit then 1 else 0
  {
    assert (bits + [bit])[..|bits|] == bits;
  }

  lemma {:induction false} PowerPush(exponent: nat)
    ensures Pow2(exponent + 1) == 2 * Pow2(exponent)
  {
  }

  lemma {:induction false} NumberOfAppend(a: seq<bool>, b: seq<bool>)
    ensures NumberOf(a + b) == NumberOf(a) * Pow2(|b|) + NumberOf(b)
  {
    if b == [] {
      assert a + b == a;
    } else {
      var n := |b| - 1;
      NumberOfAppend(a, b[..n]);
      hide NumberOf, Pow2;
      assert b == b[..n] + [b[n]];
      assert a + b == a + b[..n] + [b[n]];
      NumberOfPush(a + b[..n], b[n]);
      NumberOfPush(b[..n], b[n]);
      PowerPush(n);
      TwiceProduct(NumberOf(a), Pow2(n), NumberOf(b[..n]));
    }
  }

  lemma {:induction false} TwiceProduct(x: nat, y: nat, z: nat)
    ensures 2 * (x * y + z) == x * (2 * y) + 2 * z
  {
  }

  lemma {:induction false} NumberOfDigits(digits: seq<nat>, width: nat)
    requires AreDigits(digits, width)
    ensures NumberOf(BitString(digits, width)) == ToNumber(digits, Pow2(width))
  {
    hide BitsOf, NumberOf, BitString, Pow2;
    if digits == [] {
      NoNumber(width);
    } else {
      var n := |digits| - 1;
      NumberOfDigits(digits[..n], width);
      assert digits[..n] + [digits[n]] == digits;
      BitStringPush(digits[..n], digits[n], width);
      NumberOfAppend(BitString(digits[..n], width), BitsOf(digits[n], width));
      NumberOfBits(digits[n], width);
    }
  }

  lemma {:induction false} NoNumber(width: nat)
    ensures NumberOf(BitString([], width)) == 0
  {
  }

  /** The second number is the first one followed by `width` bits, whatever they are. */
  predicate IsFollowedBy(first: nat, width: nat, second: nat)
  {
    first * Pow2(width) <= second < first * Pow2(width) + Pow2(width)
  }

  lemma {:induction false} NumberOfPrefix(kept: seq<bool>, whole: seq<bool>)
    requires kept <= whole
    ensures IsFollowedBy(NumberOf(kept), |whole| - |kept|, NumberOf(whole))
  {
    var rest := whole[|kept|..];
    assert whole == kept + rest;
    NumberOfAppend(kept, rest);
    BitsOfNumber(rest);
  }

  /** The bytes write the number of the symbols, less the bits at the end that fill no byte. */
  lemma {:induction false} BytesWriteTheNumber(secret: string)
    requires Decoded(secret).Ok?
    ensures var bytes, symbols := Decoded(secret).value, Values(Normalized(secret));
            && |bytes| == 5 * |symbols| / 8 && (forall k | 0 <= k < |bytes| :: bytes[k] < 256)
            && IsFollowedBy(ToNumber(bytes, 256), 5 * |symbols| - 8 * |bytes|, ToNumber(symbols, 32))
  {
    var bytes, symbols := Decoded(secret).value, Values(Normalized(secret));
    hide Normalized, BitString, NumberOf, Pow2, BytesFor, Values, ToNumber, Decoded, IsFollowedBy;
    DecodedBits(secret);
    ConstantPowers();
    BitStringLength5(symbols);
    BitStringLength8(bytes);
    NumberOfDigits(symbols, 5);
    NumberOfDigits(bytes, 8);
    NumberOfPrefix(BitString(bytes, 8), BitString(symbols, 5));
  }

  // ----- The whole decoder -----

  /**
   Every secret is some text between blanks, behind any number of prefixes. Its characters
   that are not skipped, letters in capitals, are what is decoded: an error says that
   there are none, else that one of them is not in the alphabet, else that they fill less
   than ten bytes; and otherwise the bytes write their number.
   */
  lemma {:induction false} SecretMeans(secret: string)
    returns (before: string, prefixes: nat, body: string, after: string, text: string, positions: seq<nat>)
    ensures secret == before + (Prefixes(prefixes) + body) + after
    ensures IsBlank(before) && IsBlank(after) && IsTight(Prefixes(prefixes) + body) && !("otpauth://totp/" <= body)
    ensures IsSpelling(body, text, positions)
    ensures IsDecodedAs(text, Decoded(secret))
  {
    before, after := TrimCuts(secret);
    prefixes := PrefixesAreStripped(Trim(secret));
    body := StripPrefixes(Trim(secret));
    text := Normalized(secret);
    positions := CompactIsSpelled(body);
    hide Trim, StripPrefixes, Compact, IsSpelling, Prefixes, Decoded, IsDecodedAs;
    TextIsDecoded(secret);
  }

  ghost predicate IsDecodedAs(text: string, result: Result<seq<nat>, SecretError>)
  {
    match result
    case Err(EmptySecret) => text == ""
    case Err(InvalidSymbol) => exists k :: 0 <= k < |text| && text[k] !in ALPHABET
    case Err(SecretTooShort) =>
      text != "" && (forall k | 0 <= k < |text| :: text[k] in ALPHABET) && 5 * |text| < 80
    case Ok(bytes) =>
      && 10 <= |bytes| && 8 * |bytes| <= 5 * |text| < 8 * |bytes| + 8
      && (forall k | 0 <= k < |bytes| :: bytes[k] < 256)
      && exists values :: WritesSymbols(values, text)
           && IsFollowedBy(ToNumber(bytes, 256), 5 * |text| - 8 * |bytes|, ToNumber(values, 32))
  }

  lemma {:induction false} TextIsDecoded(secret: string)
    ensures IsDecodedAs(Normalized(secret), Decoded(secret))
  {
    SymbolsOrNot(Normalized(secret));
    if Decoded(secret).Ok? {
      BytesWriteTheNumber(secret);
    }
    hide Normalized, IsFollowedBy, ToNumber, BytesFor, Values, AreSymbols, WritesSymbols;
  }

  ghost predicate WritesSymbols(values: seq<nat>, text: string)
  {
    |values| == |text| && forall k | 0 <= k < |text| :: values[k] < 32 && ALPHABET[values[k]] == text[k]
  }

  lemma {:induction false} SymbolsOrNot(text: string)
    ensures AreSymbols(text) <==> forall k | 0 <= k < |text| :: text[k] in ALPHABET
    ensures AreSymbols(text) ==> WritesSymbols(Values(text), text)
  {
    forall k | 0 <= k < |text|
      ensures IsSymbol(text[k]) <==> text[k] in ALPHABET
      ensures IsSymbol(text[k]) ==> ALPHABET[SymbolValue(text[k])] == text[k]
    {
      SymbolsAreThoseOfTheAlphabet(text[k]);
    }
    hide IsSymbol, SymbolValue;
  }
}
