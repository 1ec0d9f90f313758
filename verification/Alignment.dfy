/**
 The transcript aligner: `ordered_text_matches` and its greedy fallback.

 A matching of two message lists is a list of index pairs, strictly increasing on
 both sides, that joins equal messages. The table-based aligner is proved to return
 a longest one, and among the longest ones the one whose right-hand indices come
 first in dictionary order. The queue-based fallback is proved equal to a plain
 left-to-right scan, and its result cannot be extended by any pair.
 */
module Alignment {
  import opened Wrappers

  type Pair = (nat, nat)

  const ORDERED_TEXT_MATCH_MATRIX_MAX_CELLS: nat := 1_000_000

  // ----- Matchings -----

  ghost predicate IsOrderedMatching<T>(left: seq<T>, right: seq<T>, pairs: seq<Pair>)
  {
    && (forall k | 0 <= k < |pairs| ::
          pairs[k].0 < |left| && pairs[k].1 < |right| && left[pairs[k].0] == right[pairs[k].1])
    && (forall j, k | 0 <= j < k < |pairs| :: pairs[j].0 < pairs[k].0 && pairs[j].1 < pairs[k].1)
  }

  /** Every pair lies in the rectangle whose lowest corner is (i, j). */
  ghost predicate StartsAt(pairs: seq<Pair>, i: nat, j: nat)
  {
    forall k | 0 <= k < |pairs| :: i <= pairs[k].0 && j <= pairs[k].1
  }

  /** Dictionary order of the right-hand indices. */
  ghost predicate EarlierOnRight(a: seq<Pair>, b: seq<Pair>)
  {
    a == [] || (b != [] && (a[0].1 < b[0].1 || (a[0].1 == b[0].1 && EarlierOnRight(a[1..], b[1..]))))
  }

  lemma {:induction false} TailStartsAfterHead<T>(left: seq<T>, right: seq<T>, pairs: seq<Pair>)
    requires IsOrderedMatching(left, right, pairs) && pairs != []
    ensures IsOrderedMatching(left, right, pairs[1..])
    ensures StartsAt(pairs[1..], pairs[0].0 + 1, pairs[0].1 + 1)
  {
  }

  lemma {:induction false} PrependPair<T>(left: seq<T>, right: seq<T>, i: nat, j: nat, rest: seq<Pair>)
    requires i < |left| && j < |right| && left[i] == right[j]
    requires IsOrderedMatching(left, right, rest) && StartsAt(rest, i + 1, j + 1)
    ensures IsOrderedMatching(left, right, [(i, j)] + rest)
    ensures StartsAt([(i, j)] + rest, i, j)
  {
  }

  // ----- The length table and its traceback, as functions -----

  /** The cell the table holds for the suffixes that start at i and j. */
  function Cell<T(==)>(left: seq<T>, right: seq<T>, i: nat, j: nat): nat
    requires i <= |left| && j <= |right|
    decreases |left| - i + |right| - j
  {
    if i == |left| || j == |right| then 0
    else if left[i] == right[j] then Cell(left, right, i + 1, j + 1) + 1
    else
      var skipLeft, skipRight := Cell(left, right, i + 1, j), Cell(left, right, i, j + 1);
      if skipLeft >= skipRight then skipLeft else skipRight
  }

  function Trace<T(==)>(left: seq<T>, right: seq<T>, i: nat, j: nat): seq<Pair>
    requires i <= |left| && j <= |right|
    decreases |left| - i + |right| - j
  {
    if i == |left| || j == |right| then []
    else if left[i] == right[j] then [(i, j)] + Trace(left, right, i + 1, j + 1)
    else if Cell(left, right, i + 1, j) >= Cell(left, right, i, j + 1) then Trace(left, right, i + 1, j)
    else Trace(left, right, i, j + 1)
  }

  /** The traceback is a matching, and it is as long as the table cell it starts from. */
  lemma {:induction false} TraceIsMatching<T>(left: seq<T>, right: seq<T>, i: nat, j: nat)
    requires i <= |left| && j <= |right|
    ensures IsOrderedMatching(left, right, Trace(left, right, i, j))
    ensures StartsAt(Trace(left, right, i, j), i, j)
    ensures |Trace(left, right, i, j)| == Cell(left, right, i, j)
    decreases |left| - i + |right| - j
  {
    if i < |left| && j < |right| {
      if left[i] == right[j] {
        TraceIsMatching(left, right, i + 1, j + 1);
        PrependPair(left, right, i, j, Trace(left, right, i + 1, j + 1));
      } else if Cell(left, right, i + 1, j) >= Cell(left, right, i, j + 1) {
        TraceIsMatching(left, right, i + 1, j);
      } else {
        TraceIsMatching(left, right, i, j + 1);
      }
    }
  }

  /** No matching of the two suffixes is longer than the table cell. */
  lemma {:induction false} CellBoundsMatchings<T>(left: seq<T>, right: seq<T>, i: nat, j: nat, pairs: seq<Pair>)
    requires i <= |left| && j <= |right|
    requires IsOrderedMatching(left, right, pairs) && StartsAt(pairs, i, j)
    ensures |pairs| <= Cell(left, right, i, j)
    decreases |left| - i + |right| - j
  {
    if pairs != [] {
      assert i <= pairs[0].0 < |left| && j <= pairs[0].1 < |right|;
      TailStartsAfterHead(left, right, pairs);
      if left[i] == right[j] {
        CellBoundsMatchings(left, right, i + 1, j + 1, pairs[1..]);
      } else if i < pairs[0].0 {
        CellBoundsMatchings(left, right, i + 1, j, pairs);
      } else {
        CellBoundsMatchings(left, right, i, j + 1, pairs);
      }
    }
  }

  lemma {:induction false} CellShrinks<T>(left: seq<T>, right: seq<T>, i: nat, j: nat, i': nat, j': nat)
    requires i <= i' <= |left| && j <= j' <= |right|
    ensures Cell(left, right, i', j') <= Cell(left, right, i, j)
  {
    TraceIsMatching(left, right, i', j');
    CellBoundsMatchings(left, right, i, j, Trace(left, right, i', j'));
  }

  /** A pair of equal messages in front of (i', j') lengthens every matching from there. */
  lemma {:induction false} CellGrowsByPair<T>(
    left: seq<T>, right: seq<T>, i: nat, j: nat, a: nat, b: nat, i': nat, j': nat)
    requires i <= a < i' <= |left| && j <= b < j' <= |right| && left[a] == right[b]
    ensures Cell(left, right, i', j') + 1 <= Cell(left, right, i, j)
  {
    var rest := Trace(left, right, i', j');
    TraceIsMatching(left, right, i', j');
    PrependPair(left, right, a, b, rest);
    CellBoundsMatchings(left, right, i, j, [(a, b)] + rest);
  }

  /**
   Ties: the traceback from row i' has the earliest right-hand indices of any equally
   long matching, even of one that may still use the rows from i to i'.
   */
  lemma {:induction false} TraceIsEarliest<T>(left: seq<T>, right: seq<T>, i: nat, i': nat, j: nat, pairs: seq<Pair>)
    requires i <= i' <= |left| && j <= |right|
    requires IsOrderedMatching(left, right, pairs) && StartsAt(pairs, i, j)
    requires |pairs| == Cell(left, right, i', j) == Cell(left, right, i, j)
    ensures EarlierOnRight(Trace(left, right, i', j), pairs)
    decreases |left| - i' + |right| - j
  {
    TraceIsMatching(left, right, i', j);
    if pairs != [] {
      var (a, b) := pairs[0];
      TailStartsAfterHead(left, right, pairs);
      if left[i'] == right[j] {
        if b == j {
          CellGrowsByPair(left, right, i, j, a, b, a + 1, j + 1);
          CellBoundsMatchings(left, right, a + 1, j + 1, pairs[1..]);
          TraceIsEarliest(left, right, if a <= i' then a + 1 else i' + 1, i' + 1, j + 1, pairs[1..]);
        }
      } else if Cell(left, right, i' + 1, j) >= Cell(left, right, i', j + 1) {
        TraceIsEarliest(left, right, i, i' + 1, j, pairs);
      } else {
        if b == j {
          if a < i' {
            CellGrowsByPair(left, right, i, j, a, b, i', j + 1);
          } else {
            CellBoundsMatchings(left, right, i' + 1, j, pairs);
          }
          assert false;
        }
        CellShrinks(left, right, i, j, i, j + 1);
        CellShrinks(left, right, i, j + 1, i', j + 1);
        TraceIsEarliest(left, right, i, i', j + 1, pairs);
      }
    }
  }

  // ----- The greedy scan, as a function -----

  /** The first index at or after `from` that holds `value`, or |right| if there is none. */
  function FirstAtOrAfter<T(==)>(right: seq<T>, value: T, from: nat): (index: nat)
    requires from <= |right|
    ensures from <= index <= |right|
    ensures index < |right| ==> right[index] == value
    ensures forall k | from <= k < index :: right[k] != value
    decreases |right| - from
  {
    if from == |right| || right[from] == value then from else FirstAtOrAfter(right, value, from + 1)
  }

  function Greedy<T(==)>(left: seq<T>, right: seq<T>, i: nat, next: nat): seq<Pair>
    requires i <= |left| && next <= |right|
    decreases |left| - i
  {
    if i == |left| then []
    else
      var index := FirstAtOrAfter(right, left[i], next);
      if index == |right| then Greedy(left, right, i + 1, next)
      else [(i, index)] + Greedy(left, right, i + 1, index + 1)
  }

  lemma {:induction false} GreedyIsMatching<T>(left: seq<T>, right: seq<T>, i: nat, next: nat)
    requires i <= |left| && next <= |right|
    ensures IsOrderedMatching(left, right, Greedy(left, right, i, next))
    ensures StartsAt(Greedy(left, right, i, next), i, next)
    decreases |left| - i
  {
    if i < |left| {
      var index := FirstAtOrAfter(right, left[i], next);
      if index == |right| {
        GreedyIsMatching(left, right, i + 1, next);
      } else {
        GreedyIsMatching(left, right, i + 1, index + 1);
        PrependPair(left, right, i, index, Greedy(left, right, i + 1, index + 1));
      }
    }
  }

  /** Two pairs that cannot both be in one ordered matching. */
  predicate Crosses(p: Pair, q: Pair)
  {
    !(p.0 < q.0 && p.1 < q.1) && !(q.0 < p.0 && q.1 < p.1)
  }

  /** Every candidate pair crosses some pair of the greedy matching, so none can be added. */
  lemma {:induction false} GreedyIsMaximal<T>(left: seq<T>, right: seq<T>, i: nat, next: nat, p: Pair)
    requires i <= p.0 < |left| && next <= p.1 < |right| && left[p.0] == right[p.1]
    ensures exists k | 0 <= k < |Greedy(left, right, i, next)| :: Crosses(p, Greedy(left, right, i, next)[k])
    decreases |left| - i
  {
    var result := Greedy(left, right, i, next);
    var index := FirstAtOrAfter(right, left[i], next);
    if index == |right| {
      GreedyIsMaximal(left, right, i + 1, next, p);
    } else if p.0 == i || p.1 <= index {
      assert Crosses(p, result[0]);
    } else {
      GreedyIsMaximal(left, right, i + 1, index + 1, p);
      var rest := Greedy(left, right, i + 1, index + 1);
      var k :| 0 <= k < |rest| && Crosses(p, rest[k]);
      assert result[k + 1] == rest[k];
    }
  }

  lemma {:induction false} NoOccurrence<T>(left: seq<T>, right: seq<T>, i: nat, next: nat)
    requires i <= |left| && next <= |right|
    requires forall k | i <= k < |left| :: left[k] !in right[next..]
    ensures Greedy(left, right, i, next) == []
    decreases |left| - i
  {
    if i < |left| {
      var index := FirstAtOrAfter(right, left[i], next);
      assert index == |right|;
      NoOccurrence(left, right, i + 1, next);
    }
  }

  /**
   Maximal is not longest: one message moved from the front of the left list to the
   back of the right list leaves the greedy scan with a single pair, whatever the length.
   */
  lemma {:induction false} GreedyCanBeFarFromLongest<T>(first: T, rest: seq<T>)
    requires first !in rest
    ensures Greedy([first] + rest, rest + [first], 0, 0) == [(0, |rest|)]
    ensures Cell([first] + rest, rest + [first], 0, 0) >= |rest|
  {
    var left, right := [first] + rest, rest + [first];
    var index := FirstAtOrAfter(right, first, 0);
    assert right[|rest|] == first;
    assert index == |rest| by {
      assert right[index] == first;
      assert forall k | 0 <= k < |rest| :: right[k] == rest[k];
    }
    NoOccurrence(left, right, 1, |rest| + 1);
    var shifted := seq(|rest|, k requires 0 <= k < |rest| => (k + 1, k));
    assert IsOrderedMatching(left, right, shifted);
    CellBoundsMatchings(left, right, 0, 0, shifted);
  }

  // ----- What the aligner returns -----

  function Matches<T(==)>(left: seq<T>, right: seq<T>): seq<Pair>
  {
    if |left| * |right| > ORDERED_TEXT_MATCH_MATRIX_MAX_CELLS
    then Greedy(left, right, 0, 0)
    else Trace(left, right, 0, 0)
  }

  lemma {:induction false} MatchesIsOrdered<T>(left: seq<T>, right: seq<T>)
    ensures IsOrderedMatching(left, right, Matches(left, right))
  {
    TraceIsMatching(left, right, 0, 0);
    GreedyIsMatching(left, right, 0, 0);
  }

  lemma {:induction false} MatchesIsLongest<T>(left: seq<T>, right: seq<T>, other: seq<Pair>)
    requires |left| * |right| <= ORDERED_TEXT_MATCH_MATRIX_MAX_CELLS
    requires IsOrderedMatching(left, right, other)
    ensures |other| <= |Matches(left, right)|
    ensures |other| == |Matches(left, right)| ==> EarlierOnRight(Matches(left, right), other)
  {
    TraceIsMatching(left, right, 0, 0);
    CellBoundsMatchings(left, right, 0, 0, other);
    if |other| == Cell(left, right, 0, 0) {
      TraceIsEarliest(left, right, 0, 0, 0, other);
    }
  }

  /** On either side of the limit, no further pair fits into the result. */
  lemma {:induction false} MatchesIsMaximal<T>(left: seq<T>, right: seq<T>, p: Pair)
    requires p.0 < |left| && p.1 < |right| && left[p.0] == right[p.1]
    ensures exists k | 0 <= k < |Matches(left, right)| :: Crosses(p, Matches(left, right)[k])
  {
    var result := Matches(left, right);
    if |left| * |right| > ORDERED_TEXT_MATCH_MATRIX_MAX_CELLS {
      GreedyIsMaximal(left, right, 0, 0, p);
    } else if forall k | 0 <= k < |result| :: !Crosses(p, result[k]) {
      MatchesIsOrdered(left, right);
      var n := SplitPoint(left, right, result, p);
      var extended := result[..n] + [p] + result[n..];
      assert IsOrderedMatching(left, right, extended);
      MatchesIsLongest(left, right, extended);
    }
  }

  lemma {:induction false} SplitPoint<T>(left: seq<T>, right: seq<T>, pairs: seq<Pair>, p: Pair) returns (n: nat)
    requires IsOrderedMatching(left, right, pairs)
    requires forall k | 0 <= k < |pairs| :: !Crosses(p, pairs[k])
    ensures n <= |pairs|
    ensures forall k | 0 <= k < n :: pairs[k].0 < p.0 && pairs[k].1 < p.1
    ensures forall k | n <= k < |pairs| :: p.0 < pairs[k].0 && p.1 < pairs[k].1
  {
    n := 0;
    while n < |pairs| && pairs[n].0 < p.0
      invariant n <= |pairs|
      invariant forall k | 0 <= k < n :: pairs[k].0 < p.0 && pairs[k].1 < p.1
    {
      assert !Crosses(p, pairs[n]);
      n := n + 1;
    }
    forall k | n <= k < |pairs|
      ensures p.0 < pairs[k].0 && p.1 < pairs[k].1
    {
      assert !Crosses(p, pairs[k]) && !Crosses(p, pairs[n]);
    }
  }

  // ----- The algorithms -----

  method OrderedTextMatches<T(==,!new)>(left: seq<T>, right: seq<T>) returns (matches: seq<Pair>)
    ensures matches == Matches(left, right)
    ensures IsOrderedMatching(left, right, matches)
    ensures |left| * |right| <= ORDERED_TEXT_MATCH_MATRIX_MAX_CELLS ==>
              forall other :: IsOrderedMatching(left, right, other) ==> |other| <= |matches|
  {
    MatchesIsOrdered(left, right);
    if |left| * |right| > ORDERED_TEXT_MATCH_MATRIX_MAX_CELLS {
      matches := OrderedTextMatchesGreedy(left, right);
      return;
    }
    var lengths := LengthTable(left, right);
    matches := TraceBack(left, right, lengths);
    forall other | IsOrderedMatching(left, right, other)
      ensures |other| <= |matches|
    {
      MatchesIsLongest(left, right, other);
    }
  }

  /** The second half of the aligner: from the top left cell along the table. */
  method TraceBack<T(==)>(left: seq<T>, right: seq<T>, lengths: array2<nat>) returns (matches: seq<Pair>)
    requires lengths.Length0 == |left| + 1 && lengths.Length1 == |right| + 1
    requires forall i, j | 0 <= i <= |left| && 0 <= j <= |right| :: lengths[i, j] == Cell(left, right, i, j)
    ensures matches == Trace(left, right, 0, 0)
  {
    matches := [];
    var leftIndex, rightIndex := 0, 0;
    while leftIndex < |left| && rightIndex < |right|
      invariant leftIndex <= |left| && rightIndex <= |right|
      invariant matches + Trace(left, right, leftIndex, rightIndex) == Trace(left, right, 0, 0)
      decreases |left| - leftIndex + |right| - rightIndex
    {
      if left[leftIndex] == right[rightIndex] {
        matches := matches + [(leftIndex, rightIndex)];
        leftIndex := leftIndex + 1;
        rightIndex := rightIndex + 1;
      } else if lengths[leftIndex + 1, rightIndex] >= lengths[leftIndex, rightIndex + 1] {
        leftIndex := leftIndex + 1;
      } else {
        rightIndex := rightIndex + 1;
      }
    }
  }

  lemma {:induction false} CellFromNeighbours<T>(
    left: seq<T>, right: seq<T>, i: nat, j: nat, diagonal: nat, below: nat, beside: nat)
    requires i < |left| && j < |right|
    requires diagonal == Cell(left, right, i + 1, j + 1)
    requires below == Cell(left, right, i + 1, j) && beside == Cell(left, right, i, j + 1)
    ensures Cell(left, right, i, j) ==
            if left[i] == right[j] then diagonal + 1 else if below >= beside then below else beside
  {
  }

  method LengthTable<T(==)>(left: seq<T>, right: seq<T>) returns (lengths: array2<nat>)
    ensures lengths.Length0 == |left| + 1 && lengths.Length1 == |right| + 1
    ensures forall i, j | 0 <= i <= |left| && 0 <= j <= |right| :: lengths[i, j] == Cell(left, right, i, j)
  {
    lengths := new nat[|left| + 1, |right| + 1]((i, j) => 0);
    var leftIndex := |left|;
    while leftIndex > 0
      invariant 0 <= leftIndex <= |left|
      invariant forall i | 0 <= i <= |left| :: lengths[i, |right|] == 0
      invariant forall i, j | leftIndex <= i <= |left| && 0 <= j <= |right| :: lengths[i, j] == Cell(left, right, i, j)
    {
      leftIndex := leftIndex - 1;
      FillRow(left, right, lengths, leftIndex);
    }
  }

  /** The inner loop of the table: one row, right to left, from the row below it. */
  method FillRow<T(==)>(left: seq<T>, right: seq<T>, lengths: array2<nat>, i: nat)
    requires i < |left| && lengths.Length0 == |left| + 1 && lengths.Length1 == |right| + 1
    requires lengths[i, |right|] == 0
    requires forall a, b | a == i + 1 && 0 <= b <= |right| :: lengths[a, b] == Cell(left, right, a, b)
    modifies lengths
    ensures forall j | 0 <= j <= |right| :: lengths[i, j] == Cell(left, right, i, j)
    ensures forall a, b | 0 <= a <= |left| && a != i && 0 <= b <= |right| :: lengths[a, b] == old(lengths[a, b])
  {
    var j := |right|;
    while j > 0
      invariant 0 <= j <= |right|
      invariant forall b | j <= b <= |right| :: lengths[i, b] == Cell(left, right, i, b)
      invariant forall a, b | 0 <= a <= |left| && a != i && 0 <= b <= |right| :: lengths[a, b] == old(lengths[a, b])
    {
      j := j - 1;
      var cell :=
        if left[i] == right[j] then lengths[i + 1, j + 1] + 1
        else if lengths[i + 1, j] >= lengths[i, j + 1] then lengths[i + 1, j]
        else lengths[i, j + 1];
      CellFromNeighbours(left, right, i, j, lengths[i + 1, j + 1], lengths[i + 1, j], lengths[i, j + 1]);
      lengths[i, j] := cell;
    }
  }

  /** The positions of a value from `from` up to `limit`, in order. */
  function Positions<T(==)>(right: seq<T>, value: T, from: nat, limit: nat): seq<nat>
    requires from <= limit <= |right|
    decreases limit - from
  {
    if from == limit then []
    else (if right[from] == value then [from] else []) + Positions(right, value, from + 1, limit)
  }

  lemma {:induction false} PositionsGrow<T>(right: seq<T>, value: T, from: nat, limit: nat)
    requires from <= limit < |right|
    ensures Positions(right, value, from, limit + 1)
         == Positions(right, value, from, limit) + (if right[limit] == value then [limit] else [])
    decreases limit - from
  {
    var last := if right[limit] == value then [limit] else [];
    if from < limit {
      PositionsGrow(right, value, from + 1, limit);
      var first := if right[from] == value then [from] else [];
      var middle := Positions(right, value, from + 1, limit);
      assert first + (middle + last) == (first + middle) + last;
    } else {
      assert Positions(right, value, limit + 1, limit + 1) == [];
    }
  }

  /** The list of positions starts with the first occurrence and goes on behind it. */
  lemma {:induction false} PositionsHead<T>(right: seq<T>, value: T, from: nat)
    requires from <= |right|
    ensures var first := FirstAtOrAfter(right, value, from);
            var queue := Positions(right, value, from, |right|);
            if first == |right| then queue == []
            else queue != [] && queue[0] == first && queue[1..] == Positions(right, value, first + 1, |right|)
    decreases |right| - from
  {
    if from < |right| && right[from] != value {
      PositionsHead(right, value, from + 1);
    }
  }

  /** A queue that may still begin with positions the scan has passed, but lacks none from `next` on. */
  ghost predicate StandsAt<T>(right: seq<T>, value: T, queue: seq<nat>, next: nat)
    requires next <= |right|
  {
    exists from: nat :: from <= next && queue == Positions(right, value, from, |right|)
  }

  ghost predicate AllStandAt<T(!new)>(right: seq<T>, positions: map<T, seq<nat>>, next: nat)
    requires next <= |right|
  {
    && (forall value | value in positions :: StandsAt(right, value, positions[value], next))
    && (forall value | value !in positions :: value !in right)
  }

  method OrderedTextMatchesGreedy<T(==,!new)>(left: seq<T>, right: seq<T>) returns (matches: seq<Pair>)
    ensures matches == Greedy(left, right, 0, 0)
  {
    var positions: map<T, seq<nat>> := IndexQueues(right);
    var nextRightIndex: nat := 0;
    matches := [];
    for leftIndex := 0 to |left|
      invariant nextRightIndex <= |right|
      invariant AllStandAt(right, positions, nextRightIndex)
      invariant matches + Greedy(left, right, leftIndex, nextRightIndex) == Greedy(left, right, 0, 0)
    {
      var found;
      positions, found := TakeNext(right, positions, left[leftIndex], nextRightIndex);
      if found.Some? {
        var pair := (leftIndex, found.value);
        AppendFirst(matches, pair, Greedy(left, right, leftIndex + 1, found.value + 1));
        matches := matches + [pair];
        nextRightIndex := found.value + 1;
      }
    }
  }

  lemma {:induction false} AppendFirst(pairs: seq<Pair>, pair: Pair, rest: seq<Pair>)
    ensures pairs + ([pair] + rest) == pairs + [pair] + rest
  {
  }

  /** Drops what the scan has passed from the front of the value's queue, then takes the front. */
  method TakeNext<T(==,!new)>(right: seq<T>, positions: map<T, seq<nat>>, value: T, next: nat)
    returns (rest: map<T, seq<nat>>, found: Option<nat>)
    requires next <= |right| && AllStandAt(right, positions, next)
    ensures found.Some? ==> found.value == FirstAtOrAfter(right, value, next) < |right|
    ensures found.None? ==> FirstAtOrAfter(right, value, next) == |right|
    ensures AllStandAt(right, rest, if found.Some? then found.value + 1 else next)
  {
    rest, found := positions, None;
    if value in positions {
      var queue: seq<nat> := positions[value];
      ghost var from: nat :| from <= next && queue == Positions(right, value, from, |right|);
      while |queue| > 0 && queue[0] < next
        invariant from <= next && queue == Positions(right, value, from, |right|)
      {
        PositionsHead(right, value, from);
        from := queue[0] + 1;
        queue := queue[1..];
      }
      PositionsHead(right, value, from);
      SameFirst(right, value, from, next);
      if |queue| > 0 {
        found := Some(queue[0]);
        assert StandsAt(right, value, queue[1..], queue[0] + 1);
        Advance(right, positions, value, queue[1..], next, queue[0] + 1);
        rest := positions[value := queue[1..]];
      } else {
        assert StandsAt(right, value, queue, next);
        Advance(right, positions, value, queue, next, next);
        rest := positions[value := queue];
      }
    }
  }

  lemma {:induction false} SameFirst<T>(right: seq<T>, value: T, from: nat, next: nat)
    requires from <= next <= |right| && next <= FirstAtOrAfter(right, value, from)
    ensures FirstAtOrAfter(right, value, next) == FirstAtOrAfter(right, value, from)
  {
  }

  lemma {:induction false} Advance<T(!new)>(
    right: seq<T>, positions: map<T, seq<nat>>, value: T, queue: seq<nat>, next: nat, next': nat)
    requires next <= next' <= |right| && AllStandAt(right, positions, next) && StandsAt(right, value, queue, next')
    ensures AllStandAt(right, positions[value := queue], next')
  {
    forall other | other in positions && other != value
      ensures StandsAt(right, other, positions[other], next')
    {
      assert StandsAt(right, other, positions[other], next);
    }
  }

  method IndexQueues<T(==,!new)>(right: seq<T>) returns (positions: map<T, seq<nat>>)
    ensures AllStandAt(right, positions, 0)
  {
    positions := map[];
    for index := 0 to |right|
      invariant forall value | value in positions :: positions[value] == Positions(right, value, 0, index)
      invariant forall value | value !in positions :: Positions(right, value, 0, index) == []
    {
      forall value
        ensures Positions(right, value, 0, index + 1)
             == Positions(right, value, 0, index) + (if right[index] == value then [index] else [])
      {
        PositionsGrow(right, value, 0, index);
      }
      var value := right[index];
      var queue := if value in positions then positions[value] else [];
      positions := positions[value := queue + [index]];
    }
    forall value | value !in positions
      ensures value !in right
    {
      PositionsHead(right, value, 0);
    }
  }
}
