/** Numbering new tasks: a counter that stays ahead of every number in use. */
module TaskIds {
  import opened Wrappers
  import opened Text
  import opened Board

  const MAX_SEQUENCE: nat := 0xFFFF_FFFF_FFFF_FFFF
  const TASK_PREFIX: string := "task-"

  // ----- Reading a number -----

  predicate IsDigit(c: char)
  {
    '0' <= c <= '9'
  }

  predicate AreDigits(digits: string)
  {
    forall k :: 0 <= k < |digits| ==> IsDigit(digits[k])
  }

  function NumeralValue(digits: string): (value: nat)
    requires AreDigits(digits)
  {
    if digits == [] then 0
    else
      var last := digits[|digits| - 1];
      assert IsDigit(last);
      10 * NumeralValue(digits[..|digits| - 1]) + (last as int - '0' as int)
  }

  function Unsigned(s: string): string
  {
    if s != [] && s[0] == '+' then s[1..] else s
  }

  /** An unsigned 64-bit number: digits, perhaps behind a plus sign, that do not overflow. */
  function ParseSequence(s: string): Option<nat>
  {
    var digits := Unsigned(s);
    if digits == [] || !AreDigits(digits) then None
    else if NumeralValue(digits) > MAX_SEQUENCE then None
    else Some(NumeralValue(digits))
  }

  function NumericTaskSequence(taskId: string): Option<nat>
  {
    if TASK_PREFIX <= taskId then ParseSequence(taskId[|TASK_PREFIX|..]) else None
  }

  function NumberedId(sequence: nat): string
  {
    TASK_PREFIX + Decimal(sequence)
  }

  lemma {:induction false} NumeralOfDecimal(n: nat)
    ensures Decimal(n) != [] && AreDigits(Decimal(n))
    ensures NumeralValue(Decimal(n)) == n
  {
    if n >= 10 {
      NumeralOfDecimal(n / 10);
      var digits := Decimal(n);
      assert digits[..|digits| - 1] == Decimal(n / 10);
    } else {
      assert Decimal(n)[..0] == [];
    }
  }

  /** The number in an id that was made from one is that number. */
  lemma {:induction false} SequenceOfNumberedId(sequence: nat)
    requires sequence <= MAX_SEQUENCE
    ensures NumericTaskSequence(NumberedId(sequence)) == Some(sequence)
  {
    NumeralOfDecimal(sequence);
    assert NumberedId(sequence)[|TASK_PREFIX|..] == Decimal(sequence);
    hide NumeralValue, Decimal;
  }

  function Zeros(count: nat): string
  {
    if count == 0 then "" else Zeros(count - 1) + "0"
  }

  lemma {:induction false} ValueOfPush(digits: string, last: char)
    requires AreDigits(digits) && IsDigit(last)
    ensures AreDigits(digits + [last])
    ensures NumeralValue(digits + [last]) == 10 * NumeralValue(digits) + (last as int - '0' as int)
  {
    assert (digits + [last])[..|digits|] == digits;
  }

  lemma {:induction false} DecimalPush(n: nat)
    requires n >= 10
    ensures Decimal(n) == Decimal(n / 10) + [Digit(n % 10)]
  {
  }

  lemma {:induction false} DigitIsDigit(n: nat)
    requires n < 10
    ensures IsDigit(Digit(n)) && Digit(n) as int - '0' as int == n && Decimal(n) == [Digit(n)]
  {
  }

  lemma {:induction false} Regroup(a: string, b: string, c: string)
    ensures a + (b + c) == a + b + c
  {
  }

  lemma {:induction false} ZerosDoNotCount(zeros: nat, n: nat)
    ensures AreDigits(Zeros(zeros) + Decimal(n)) && NumeralValue(Zeros(zeros) + Decimal(n)) == n
    ensures Decimal(n) != [] && IsDigit((Zeros(zeros) + Decimal(n))[0])
  {
    hide Decimal, Zeros, NumeralValue, AreDigits, IsDigit, Digit;
    DigitIsDigit(n % 10);
    if n >= 10 {
      ZerosDoNotCount(zeros, n / 10);
      DecimalPush(n);
      Regroup(Zeros(zeros), Decimal(n / 10), [Digit(n % 10)]);
      ValueOfPush(Zeros(zeros) + Decimal(n / 10), Digit(n % 10));
    } else {
      ZerosAreZero(zeros);
      ValueOfPush(Zeros(zeros), Digit(n));
    }
    FirstIsDigit(Zeros(zeros) + Decimal(n));
  }

  lemma {:induction false} FirstIsDigit(digits: string)
    requires AreDigits(digits) && digits != []
    ensures IsDigit(digits[0])
  {
  }

  lemma {:induction false} ZerosAreZero(zeros: nat)
    ensures AreDigits(Zeros(zeros)) && NumeralValue(Zeros(zeros)) == 0
  {
    if zeros > 0 {
      ZerosAreZero(zeros - 1);
      ValueOfPush(Zeros(zeros - 1), '0');
    }
  }

  /** Digits are the numeral of their value, behind zeros. */
  lemma {:induction false} DigitsAreNumeral(digits: string) returns (zeros: nat)
    requires digits != [] && AreDigits(digits)
    ensures digits == Zeros(zeros) + Decimal(NumeralValue(digits))
  {
    var init, last := digits[..|digits| - 1], digits[|digits| - 1];
    LastIsDigit(digits);
    hide Decimal, Zeros, NumeralValue, Digit, AreDigits, IsDigit;
    ValueOfPush(init, last);
    if init == [] {
      zeros := 0;
      NothingBefore(last);
    } else {
      zeros := DigitsAreNumeral(init);
      OneMoreDigit(NumeralValue(init), last, zeros);
      if NumeralValue(init) == 0 {
        zeros := zeros + 1;
      }
    }
  }

  lemma {:induction false} LastIsDigit(digits: string)
    requires digits != [] && AreDigits(digits)
    ensures var init, last := digits[..|digits| - 1], digits[|digits| - 1];
            digits == init + [last] && AreDigits(init) && IsDigit(last)
  {
  }

  lemma {:induction false} NothingBefore(last: char)
    requires IsDigit(last)
    ensures [] + [last] == Zeros(0) + Decimal(last as int - '0' as int)
    ensures NumeralValue([]) == 0
  {
  }

  lemma {:induction false} OneMoreDigit(value: nat, last: char, zeros: nat)
    requires IsDigit(last)
    ensures Zeros(zeros) + Decimal(value) + [last]
         == Zeros(if value == 0 then zeros + 1 else zeros) + Decimal(10 * value + (last as int - '0' as int))
  {
    hide Decimal, Digit, Zeros;
    var digit := last as int - '0' as int;
    DigitIsDigit(digit);
    if value == 0 {
      DigitIsDigit(0);
      OneMoreZero(zeros);
    } else {
      DecimalPush(10 * value + digit);
      Regroup(Zeros(zeros), Decimal(value), [last]);
    }
  }

  lemma {:induction false} OneMoreZero(zeros: nat)
    ensures Zeros(zeros) + ['0'] == Zeros(zeros + 1)
  {
  }

  ghost predicate IsNumbered(taskId: string, sign: string, zeros: nat, sequence: nat)
  {
    sign in {"", "+"} && taskId == "task-" + (sign + (Zeros(zeros) + Decimal(sequence)))
  }

  /** An id is numbered if it is `task-` and a numeral that fits 64 bits, perhaps behind a plus sign and zeros. */
  lemma {:induction false} NumberedIdsAre(taskId: string, sequence: nat)
    ensures NumericTaskSequence(taskId) == Some(sequence) <==>
              sequence <= 0xFFFF_FFFF_FFFF_FFFF && exists sign, zeros :: IsNumbered(taskId, sign, zeros, sequence)
  {
    if NumericTaskSequence(taskId) == Some(sequence) {
      NumberIsWritten(taskId, sequence);
    }
    if sequence <= 0xFFFF_FFFF_FFFF_FFFF && exists sign, zeros :: IsNumbered(taskId, sign, zeros, sequence) {
      var sign, zeros :| IsNumbered(taskId, sign, zeros, sequence);
      WrittenIsNumber(taskId, sign, zeros, sequence);
    }
  }

  lemma {:induction false} NumberIsWritten(taskId: string, sequence: nat)
    requires NumericTaskSequence(taskId) == Some(sequence)
    ensures sequence <= MAX_SEQUENCE && exists sign, zeros :: IsNumbered(taskId, sign, zeros, sequence)
  {
    var s := taskId[|TASK_PREFIX|..];
    assert ParseSequence(s) == Some(sequence);
    assert taskId == TASK_PREFIX + s;
    var sign := if s != [] && s[0] == '+' then "+" else "";
    assert s == sign + Unsigned(s);
    hide Zeros, Decimal, NumeralValue, Unsigned;
    var zeros := DigitsAreNumeral(Unsigned(s));
    assert IsNumbered(taskId, sign, zeros, sequence);
  }

  lemma {:induction false} WrittenIsNumber(taskId: string, sign: string, zeros: nat, sequence: nat)
    requires IsNumbered(taskId, sign, zeros, sequence) && sequence <= MAX_SEQUENCE
    ensures NumericTaskSequence(taskId) == Some(sequence)
  {
    ZerosDoNotCount(zeros, sequence);
    var digits := Zeros(zeros) + Decimal(sequence);
    hide Zeros, Decimal, NumeralValue, AreDigits;
    assert taskId[|TASK_PREFIX|..] == sign + digits;
    assert Unsigned(sign + digits) == digits;
  }

  // ----- Allocating -----

  /** The largest number in use, or 0. */
  function MaxExistingSequence(tasks: seq<Task>): nat
  {
    if tasks == [] then 0
    else
      var rest, last := MaxExistingSequence(tasks[..|tasks| - 1]), NumericTaskSequence(tasks[|tasks| - 1].id);
      if last.Some? && last.value > rest then last.value else rest
  }

  lemma {:induction false} MaxExistingBounds(tasks: seq<Task>)
    ensures MaxExistingSequence(tasks) <= MAX_SEQUENCE
    ensures forall task :: task in tasks && NumericTaskSequence(task.id).Some? ==>
              NumericTaskSequence(task.id).value <= MaxExistingSequence(tasks)
  {
    if tasks != [] {
      var before, last := tasks[..|tasks| - 1], tasks[|tasks| - 1];
      MaxExistingBounds(before);
      assert forall task :: task in tasks ==> task in before || task == last;
      assert NumericTaskSequence(last.id).Some? ==> NumericTaskSequence(last.id).value <= MAX_SEQUENCE;
      hide NumericTaskSequence;
    }
  }

  /** Where the count goes on: behind everything ever counted and everything in use. */
  function Reached(tasks: seq<Task>, nextTaskSequence: nat): nat
  {
    if nextTaskSequence < MaxExistingSequence(tasks) then MaxExistingSequence(tasks) else nextTaskSequence
  }

  /** No id that lies ahead of the count is taken, so the first candidate always serves. */
  lemma {:induction false} AheadIsFree(tasks: seq<Task>, sequence: nat)
    requires MaxExistingSequence(tasks) < sequence <= MAX_SEQUENCE
    ensures NumberedId(sequence) !in Ids(tasks)
  {
    MaxExistingBounds(tasks);
    SequenceOfNumberedId(sequence);
    hide NumericTaskSequence, NumberedId, MaxExistingSequence;
  }

  /** The counter after an allocation on each of the boards in turn. */
  function Counter(start: nat, boards: seq<seq<Task>>): nat
  {
    if boards == [] then start
    else
      var reached := Reached(boards[|boards| - 1], Counter(start, boards[..|boards| - 1]));
      if reached < MAX_SEQUENCE then reached + 1 else reached
  }

  /** The next number follows the greatest of those in use and the count, or is that one if there is none behind it. */
  lemma {:induction false} NextFollowsTheGreatest(tasks: seq<Task>, start: nat) returns (greatest: nat)
    ensures start <= greatest
    ensures forall task, n :: task in tasks && NumericTaskSequence(task.id) == Some(n) ==> n <= greatest
    ensures greatest == start || exists task :: task in tasks && NumericTaskSequence(task.id) == Some(greatest)
    ensures Counter(start, [tasks]) == if greatest < 0xFFFF_FFFF_FFFF_FFFF then greatest + 1 else greatest
  {
    greatest := Reached(tasks, start);
    MaxExistingBounds(tasks);
    MaxExistingIsTaken(tasks);
    hide NumericTaskSequence, MaxExistingSequence;
    assert [tasks][..0] == [];
    assert Counter(start, []) == start;
  }

  lemma {:induction false} MaxExistingIsTaken(tasks: seq<Task>)
    ensures MaxExistingSequence(tasks) == 0
            || exists task :: task in tasks && NumericTaskSequence(task.id) == Some(MaxExistingSequence(tasks))
  {
    if tasks != [] {
      MaxExistingIsTaken(tasks[..|tasks| - 1]);
      hide NumericTaskSequence;
      assert tasks[|tasks| - 1] in tasks;
    }
  }

  lemma {:induction false} CounterGrows(start: nat, boards: seq<seq<Task>>, i: nat, j: nat)
    requires i < j <= |boards| && start <= MAX_SEQUENCE && Counter(start, boards[..i]) < MAX_SEQUENCE
    ensures Counter(start, boards[..i]) < Counter(start, boards[..j]) <= MAX_SEQUENCE
  {
    hide MaxExistingSequence, NumericTaskSequence;
    if i + 1 < j {
      CounterGrows(start, boards, i, j - 1);
    }
    MaxExistingBounds(boards[j - 1]);
    assert boards[..j][..j - 1] == boards[..j - 1];
  }

  /**
   Over any course of allocations, whatever tasks were added or deleted between them, no
   number is handed out twice, for as long as the counter has not run out.
   */
  lemma {:induction false} NoIdIsAllocatedTwice(start: nat, boards: seq<seq<Task>>, i: nat, j: nat)
    requires 0 < i < j <= |boards| && start <= MAX_SEQUENCE && Counter(start, boards[..i]) < MAX_SEQUENCE
    ensures NumberedId(Counter(start, boards[..i])) != NumberedId(Counter(start, boards[..j]))
  {
    CounterGrows(start, boards, i, j);
    SequenceOfNumberedId(Counter(start, boards[..i]));
    SequenceOfNumberedId(Counter(start, boards[..j]));
    hide NumericTaskSequence, NumberedId, Counter;
  }
}
