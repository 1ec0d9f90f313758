/**
 Text as the source sees it: a sequence of Unicode scalar values, each of which takes
 one to four bytes in UTF-8. Byte lengths and byte offsets are sums of these widths.
 */
module Text {

  // ----- UTF-8 widths -----

  function CharWidth(c: char): nat
  {
    var code := c as int;
    if code < 0x80 then 1 else if code < 0x800 then 2 else if code < 0x1_0000 then 3 else 4
  }

  function ByteLen(s: string): nat
  {
    if s == [] then 0 else CharWidth(s[0]) + ByteLen(s[1..])
  }

  lemma {:induction false} ByteLenAppend(a: string, b: string)
    ensures ByteLen(a + b) == ByteLen(a) + ByteLen(b)
  {
    if a == [] {
      assert a + b == b;
    } else {
      ByteLenAppend(a[1..], b);
      assert (a + b)[1..] == a[1..] + b;
    }
  }

  lemma {:induction false} ByteLenBounds(s: string)
    ensures |s| <= ByteLen(s) <= 4 * |s|
  {
    if s != [] {
      ByteLenBounds(s[1..]);
    }
  }

  lemma {:induction false} ByteLenPush(s: string, c: char)
    ensures ByteLen(s + [c]) == ByteLen(s) + CharWidth(c)
  {
    ByteLenAppend(s, [c]);
  }

  // ----- Trimming -----

  /** The characters with the Unicode White_Space property. */
  predicate IsWhitespace(c: char)
  {
    var code := c as int;
    || 0x09 <= code <= 0x0D || code == 0x20 || code == 0x85 || code == 0xA0 || code == 0x1680
    || 0x2000 <= code <= 0x200A || code == 0x2028 || code == 0x2029 || code == 0x202F
    || code == 0x205F || code == 0x3000
  }

  function TrimStart(s: string): string
  {
    if s != [] && IsWhitespace(s[0]) then TrimStart(s[1..]) else s
  }

  function TrimEnd(s: string): string
  {
    if s != [] && IsWhitespace(s[|s| - 1]) then TrimEnd(s[..|s| - 1]) else s
  }

  function Trim(s: string): string
  {
    TrimEnd(TrimStart(s))
  }

  /** A text that neither starts nor ends with white space is its own trimming. */
  lemma {:induction false} TrimKeeps(s: string)
    requires s == [] || (!IsWhitespace(s[0]) && !IsWhitespace(s[|s| - 1]))
    ensures Trim(s) == s
  {
  }

  lemma {:induction false} TrimStartIsTight(s: string)
    ensures TrimStart(s) == [] || !IsWhitespace(TrimStart(s)[0])
  {
    if s != [] && IsWhitespace(s[0]) {
      TrimStartIsTight(s[1..]);
    }
  }

  lemma {:induction false} TrimEndIsTight(s: string)
    requires s == [] || !IsWhitespace(s[0])
    ensures TrimEnd(s) == [] || (!IsWhitespace(TrimEnd(s)[0]) && !IsWhitespace(TrimEnd(s)[|TrimEnd(s)| - 1]))
  {
    if s != [] && IsWhitespace(s[|s| - 1]) {
      TrimEndIsTight(s[..|s| - 1]);
    }
  }

  lemma {:induction false} TrimIsIdempotent(s: string)
    ensures Trim(Trim(s)) == Trim(s)
  {
    TrimStartIsTight(s);
    TrimEndIsTight(TrimStart(s));
    TrimKeeps(Trim(s));
  }

  predicate IsBlank(s: string)
  {
    forall k | 0 <= k < |s| :: IsWhitespace(s[k])
  }

  /** Nothing to trim: neither end is white space. */
  predicate IsTight(s: string)
  {
    s != [] ==> !IsWhitespace(s[0]) && !IsWhitespace(s[|s| - 1])
  }

  /** Trimming takes the white space around a text, all of it, and nothing else. */
  lemma {:induction false} TrimCuts(s: string) returns (before: string, after: string)
    ensures s == before + Trim(s) + after
    ensures IsBlank(before) && IsBlank(after) && IsTight(Trim(s))
  {
    before := TrimStartCuts(s);
    after := TrimEndCuts(TrimStart(s));
    TrimStartIsTight(s);
    TrimEndIsTight(TrimStart(s));
    hide TrimStart, TrimEnd;
  }

  lemma {:induction false} TrimStartCuts(s: string) returns (before: string)
    ensures s == before + TrimStart(s) && IsBlank(before)
  {
    before := "";
    if s != [] && IsWhitespace(s[0]) {
      var more := TrimStartCuts(s[1..]);
      before := [s[0]] + more;
      FirstAndRest(s, more, TrimStart(s[1..]));
    }
  }

  lemma {:induction false} FirstAndRest(s: string, more: string, rest: string)
    requires s != [] && s[1..] == more + rest
    ensures s == [s[0]] + more + rest
  {
    assert s == [s[0]] + s[1..];
  }

  lemma {:induction false} TrimEndCuts(s: string) returns (after: string)
    ensures s == TrimEnd(s) + after && IsBlank(after)
  {
    after := "";
    if s != [] && IsWhitespace(s[|s| - 1]) {
      var n := |s| - 1;
      var more := TrimEndCuts(s[..n]);
      after := more + [s[n]];
      RestAndLast(s, TrimEnd(s[..n]), more);
    }
  }

  lemma {:induction false} RestAndLast(s: string, rest: string, more: string)
    requires s != [] && s[..|s| - 1] == rest + more
    ensures s == rest + (more + [s[|s| - 1]])
  {
    assert s == s[..|s| - 1] + [s[|s| - 1]];
  }

  /** Whatever is left between blanks and cannot be trimmed itself is the trimming. */
  lemma {:induction false} TrimIs(before: string, core: string, after: string)
    requires IsBlank(before) && IsBlank(after) && IsTight(core)
    ensures Trim(before + core + after) == core
  {
    if core == [] {
      BlankTrims(before + core + after);
    } else {
      assert before + core + after == before + (core + after);
      TrimStartIs(before, core + after);
      TrimEndIs(core, after);
    }
  }

  lemma {:induction false} BlankTrims(s: string)
    requires IsBlank(s)
    ensures TrimStart(s) == ""
  {
    if s != [] {
      BlankTrims(s[1..]);
    }
  }

  lemma {:induction false} TrimStartIs(before: string, core: string)
    requires IsBlank(before) && core != [] && !IsWhitespace(core[0])
    ensures TrimStart(before + core) == core
  {
    if before == [] {
      assert before + core == core;
    } else {
      assert (before + core)[1..] == before[1..] + core;
      TrimStartIs(before[1..], core);
    }
  }

  lemma {:induction false} TrimEndIs(core: string, after: string)
    requires IsBlank(after) && core != [] && !IsWhitespace(core[|core| - 1])
    ensures TrimEnd(core + after) == core
  {
    if after == [] {
      assert core + after == core;
    } else {
      var n := |after| - 1;
      assert (core + after)[..|core + after| - 1] == core + after[..n];
      TrimEndIs(core, after[..n]);
    }
  }

  // ----- Decimal numerals -----

  function Digit(n: nat): char
    requires n < 10
  {
    "0123456789"[n]
  }

  function Decimal(n: nat): string
  {
    if n < 10 then [Digit(n)] else Decimal(n / 10) + [Digit(n % 10)]
  }
}
