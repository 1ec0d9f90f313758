/**
 Keeping the end of a growing list under a weight limit. The terminal replay buffer does
 this with output chunks and their byte lengths, the captured diagnostics with
 characters and their UTF-8 widths.
 */
module BoundedSuffix {

  function Weight<T>(items: seq<T>, weigh: T -> nat): nat
  {
    if items == [] then 0 else weigh(items[0]) + Weight(items[1..], weigh)
  }

  /** Drops items from the front until the rest fits. */
  function LongestFitting<T>(items: seq<T>, weigh: T -> nat, limit: nat): seq<T>
  {
    if Weight(items, weigh) <= limit then items else LongestFitting(items[1..], weigh, limit)
  }

  lemma {:induction false} WeightAppend<T>(a: seq<T>, b: seq<T>, weigh: T -> nat)
    ensures Weight(a + b, weigh) == Weight(a, weigh) + Weight(b, weigh)
  {
    if a == [] {
      assert a + b == b;
    } else {
      WeightAppend(a[1..], b, weigh);
      assert (a + b)[1..] == a[1..] + b;
    }
  }

  /** What is kept is a suffix that fits, and every longer suffix is too heavy. */
  lemma {:induction false} LongestFittingIsLongest<T>(items: seq<T>, weigh: T -> nat, limit: nat) returns (dropped: nat)
    ensures dropped <= |items| && LongestFitting(items, weigh, limit) == items[dropped..]
    ensures Weight(items[dropped..], weigh) <= limit
    ensures forall k | 0 <= k < dropped :: Weight(items[k..], weigh) > limit
  {
    if Weight(items, weigh) <= limit {
      dropped := 0;
    } else {
      dropped := LongestFittingIsLongest(items[1..], weigh, limit);
      dropped := dropped + 1;
      forall k | 0 <= k < dropped
        ensures Weight(items[k..], weigh) > limit
      {
        if k > 0 {
          assert items[k..] == items[1..][k - 1..];
        }
      }
    }
  }

  /** Nothing dropped early is ever missed: bounding as one goes equals bounding at the end. */
  lemma {:induction false} BoundingIsIncremental<T>(a: seq<T>, b: seq<T>, weigh: T -> nat, limit: nat)
    ensures LongestFitting(LongestFitting(a, weigh, limit) + b, weigh, limit) == LongestFitting(a + b, weigh, limit)
  {
    if Weight(a, weigh) > limit {
      WeightAppend(a, b, weigh);
      assert (a + b)[1..] == a[1..] + b;
      BoundingIsIncremental(a[1..], b, weigh, limit);
    }
  }
}
