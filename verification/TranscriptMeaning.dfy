/** What the transcript merges identify, keep and import, told in the fields of the messages. */
module TranscriptMeaning {
  import opened Wrappers
  import opened Text
  import opened Alignment
  import opened TranscriptMerge

  // ----- Positions of what is kept -----

  /** The positions are increasing, and they are those of the entries worth keeping and not flagged. */
  ghost predicate ArePositionsOf<T(!new)>(
    positions: seq<nat>, items: seq<T>, flags: seq<bool>, keep: T -> bool, kept: seq<T>)
    requires |flags| == |items|
  {
    && |positions| == |kept|
    && (forall k | 0 <= k < |positions| :: positions[k] < |items| && kept[k] == items[positions[k]])
    && (forall j, k | 0 <= j < k < |positions| :: positions[j] < positions[k])
    && (forall i | 0 <= i < |items| :: i in positions <==> keep(items[i]) && !flags[i])
  }

  function ShiftAll(positions: seq<nat>): (shifted: seq<nat>)
    ensures |shifted| == |positions| && forall k | 0 <= k < |positions| :: shifted[k] == positions[k] + 1
  {
    seq(|positions|, k requires 0 <= k < |positions| => positions[k] + 1)
  }

  lemma {:induction false} UnflaggedPositions<T(!new)>(items: seq<T>, flags: seq<bool>, keep: T -> bool)
    returns (positions: seq<nat>)
    requires |items| == |flags|
    ensures ArePositionsOf(positions, items, flags, keep, Unflagged(items, flags, keep))
  {
    if items == [] {
      positions := [];
    } else {
      var rest := UnflaggedPositions(items[1..], flags[1..], keep);
      var kept := Unflagged(items[1..], flags[1..], keep);
      var here := keep(items[0]) && !flags[0];
      assert Unflagged(items, flags, keep) == (if here then [items[0]] else []) + kept;
      hide Unflagged;
      positions := (if here then [0] else []) + ShiftAll(rest);
      if here {
        PositionsWithFirst(rest, items, flags, keep, kept);
      } else {
        assert [] + kept == kept && [] + ShiftAll(rest) == ShiftAll(rest);
        PositionsWithoutFirst(rest, items, flags, keep, kept);
      }
    }
  }

  lemma {:induction false} ShiftedHas(positions: seq<nat>, i: nat)
    ensures i in ShiftAll(positions) <==> i > 0 && i - 1 in positions
  {
    if i > 0 && i - 1 in positions {
      var k :| 0 <= k < |positions| && positions[k] == i - 1;
      assert ShiftAll(positions)[k] == i;
    }
  }

  lemma {:induction false} PositionsWithoutFirst<T(!new)>(
    rest: seq<nat>, items: seq<T>, flags: seq<bool>, keep: T -> bool, kept: seq<T>)
    requires |items| == |flags| > 0 && !(keep(items[0]) && !flags[0])
    requires ArePositionsOf(rest, items[1..], flags[1..], keep, kept)
    ensures ArePositionsOf(ShiftAll(rest), items, flags, keep, kept)
  {
    forall i | 0 <= i < |items|
      ensures i in ShiftAll(rest) <==> keep(items[i]) && !flags[i]
    {
      ShiftedHas(rest, i);
      assert i > 0 ==> items[1..][i - 1] == items[i] && flags[1..][i - 1] == flags[i];
    }
  }

  lemma {:induction false} PositionsWithFirst<T(!new)>(
    rest: seq<nat>, items: seq<T>, flags: seq<bool>, keep: T -> bool, kept: seq<T>)
    requires |items| == |flags| > 0 && keep(items[0]) && !flags[0]
    requires ArePositionsOf(rest, items[1..], flags[1..], keep, kept)
    ensures ArePositionsOf([0] + ShiftAll(rest), items, flags, keep, [items[0]] + kept)
  {
    var shifted := ShiftAll(rest);
    assert forall k | 0 <= k < |shifted| :: 0 < shifted[k] < |items| && kept[k] == items[shifted[k]];
    forall i | 0 <= i < |items|
      ensures i in [0] + shifted <==> keep(items[i]) && !flags[i]
    {
      ShiftedHas(rest, i);
      InPrepended(0, shifted, i);
      if i > 0 {
        TailAt(items, i);
        TailAt(flags, i);
      }
    }
    IncreasesFromZero(shifted);
    forall k | 0 <= k < |[0] + shifted|
      ensures ([0] + shifted)[k] < |items| && ([items[0]] + kept)[k] == items[([0] + shifted)[k]]
    {
      PrependedAt(0, shifted, k);
      PrependedAt(items[0], kept, k);
    }
  }

  lemma {:induction false} IncreasesFromZero(positions: seq<nat>)
    requires forall k | 0 <= k < |positions| :: 0 < positions[k]
    requires forall j, k | 0 <= j < k < |positions| :: positions[j] < positions[k]
    ensures forall j, k | 0 <= j < k <= |positions| :: ([0] + positions)[j] < ([0] + positions)[k]
  {
  }

  lemma {:induction false} PrependedAt<T>(first: T, rest: seq<T>, k: nat)
    requires k <= |rest|
    ensures ([first] + rest)[k] == if k == 0 then first else rest[k - 1]
  {
  }

  lemma {:induction false} InPrepended(first: nat, rest: seq<nat>, i: nat)
    ensures i in [first] + rest <==> i == first || i in rest
  {
  }

  lemma {:induction false} TailAt<T>(items: seq<T>, i: nat)
    requires 0 < i < |items|
    ensures items[1..][i - 1] == items[i]
  {
  }

  // ----- The mapped merge -----

  /** The same message: role and content agree, up to white space around the content. */
  predicate IsSameMessage(a: Message, b: Message)
  {
    a.role == b.role && Trim(a.content) == Trim(b.content)
  }

  /** Positions of same messages, in order on both sides. */
  ghost predicate IsPairing(stored: seq<Message>, external: seq<Message>, pairs: seq<Pair>)
  {
    && (forall k | 0 <= k < |pairs| ::
          && pairs[k].0 < |stored| && pairs[k].1 < |external|
          && IsSameMessage(stored[pairs[k].0], external[pairs[k].1]))
    && (forall j, k | 0 <= j < k < |pairs| :: pairs[j].0 < pairs[k].0 && pairs[j].1 < pairs[k].1)
  }

  lemma {:induction false} PairingIsMatching(stored: seq<Message>, external: seq<Message>, pairs: seq<Pair>)
    ensures IsPairing(stored, external, pairs) <==> IsOrderedMatching(MatchKeys(stored), MatchKeys(external), pairs)
  {
    hide Trim;
  }

  /**
   The provider's message under the identity of the stored one; the stored metadata wins,
   and it is marked external.
   */
  ghost predicate IsAdopted(after: Message, external: Message, stored: Message)
  {
    && after.id == stored.id
    && after.role == external.role && after.content == external.content && after.timestamp == external.timestamp
    && (if external.metadata.Object? && stored.metadata.Object? then
          && after.metadata.Object?
          && after.metadata.fields.Keys == external.metadata.fields.Keys + stored.metadata.fields.Keys + {"external"}
          && forall key | key in after.metadata.fields ::
               after.metadata.fields[key] ==
               if key == "external" then True
               else if key in stored.metadata.fields then stored.metadata.fields[key]
               else external.metadata.fields[key]
        else after.metadata == external.metadata)
  }

  lemma {:induction false} AdoptMeans(external: Message, stored: Message)
    ensures IsAdopted(Adopt(external, stored), external, stored)
  {
  }

  /**
   What the merge brings together, before it is sorted by time: all provider messages,
   the identified ones under their stored identities, and behind them the system messages
   that were not identified. What is identified are same messages, in order; and up to a
   million table cells no more of them could be.
   */
  lemma {:induction false} MappedMessagesAre(stored: seq<Message>, external: seq<Message>)
    returns (pairs: seq<Pair>, positions: seq<nat>)
    ensures IsPairing(stored, external, pairs)
    ensures |stored| * |external| <= 1_000_000 ==>
              forall other :: IsPairing(stored, external, other) ==> |other| <= |pairs|
    ensures var mapped := MappedMessages(stored, external);
            && |mapped| == |external| + |positions|
            && (forall k | 0 <= k < |pairs| ::
                  IsAdopted(mapped[pairs[k].1], external[pairs[k].1], stored[pairs[k].0]))
            && (forall i | 0 <= i < |external| && (forall k | 0 <= k < |pairs| :: pairs[k].1 != i) ::
                  mapped[i] == external[i])
            && (forall k | 0 <= k < |positions| ::
                  positions[k] < |stored| && mapped[|external| + k] == stored[positions[k]])
            && (forall j, k | 0 <= j < k < |positions| :: positions[j] < positions[k])
            && (forall s | 0 <= s < |stored| ::
                  s in positions <==> stored[s].role == System && forall k | 0 <= k < |pairs| :: pairs[k].0 != s)
  {
    hide Trim, IsAdopted, Adopted, Orphans;
    var left, right := MatchKeys(stored), MatchKeys(external);
    pairs := Matches(left, right);
    MatchesIsOrdered(left, right);
    PairingIsMatching(stored, external, pairs);
    NoLongerPairing(stored, external);
    ProviderPart(stored, external, pairs);
    positions := OrphanPart(stored, pairs);
    hide MatchKeys, Matches;
  }

  lemma {:induction false} ProviderPart(stored: seq<Message>, external: seq<Message>, pairs: seq<Pair>)
    requires IsOrderedMatching(MatchKeys(stored), MatchKeys(external), pairs) && IsPairing(stored, external, pairs)
    ensures var adopted := Adopted(stored, external, pairs, |pairs|);
            && (forall k | 0 <= k < |pairs| ::
                  IsAdopted(adopted[pairs[k].1], external[pairs[k].1], stored[pairs[k].0]))
            && (forall i | 0 <= i < |external| && (forall k | 0 <= k < |pairs| :: pairs[k].1 != i) ::
                  adopted[i] == external[i])
  {
    hide MatchKeys, IsAdopted, Adopt;
    forall k | 0 <= k < |pairs|
      ensures IsAdopted(Adopted(stored, external, pairs, |pairs|)[pairs[k].1], external[pairs[k].1], stored[pairs[k].0])
    {
      AdoptMeans(external[pairs[k].1], stored[pairs[k].0]);
    }
  }

  lemma {:induction false} OrphanPart(stored: seq<Message>, pairs: seq<Pair>) returns (positions: seq<nat>)
    requires forall k | 0 <= k < |pairs| :: pairs[k].0 < |stored|
    ensures var orphans := Orphans(stored, pairs);
            && |orphans| == |positions|
            && (forall k | 0 <= k < |positions| :: positions[k] < |stored| && orphans[k] == stored[positions[k]])
            && (forall j, k | 0 <= j < k < |positions| :: positions[j] < positions[k])
            && (forall s | 0 <= s < |stored| ::
                  s in positions <==> stored[s].role == System && forall k | 0 <= k < |pairs| :: pairs[k].0 != s)
  {
    var flags := Flags(|stored|, Lefts(pairs));
    positions := UnflaggedPositions(stored, flags, (message: Message) => message.role == System);
    LeftsAre(pairs, |stored|);
    hide Flags, Lefts, Unflagged;
  }

  lemma {:induction false} LeftsAre(pairs: seq<Pair>, n: nat)
    requires forall k | 0 <= k < |pairs| :: pairs[k].0 < n
    ensures forall s: nat | s < n :: Flags(n, Lefts(pairs))[s] <==> exists k :: 0 <= k < |pairs| && pairs[k].0 == s
  {
    forall s: nat | s < n
      ensures s in Lefts(pairs) <==> exists k :: 0 <= k < |pairs| && pairs[k].0 == s
    {
      if k :| 0 <= k < |pairs| && pairs[k].0 == s {
        assert Lefts(pairs)[k] == s;
      }
    }
    hide Flags, Lefts;
  }

  lemma {:induction false} NoLongerPairing(stored: seq<Message>, external: seq<Message>)
    ensures |stored| * |external| <= 1_000_000 ==>
              forall other :: IsPairing(stored, external, other) ==>
                |other| <= |Matches(MatchKeys(stored), MatchKeys(external))|
  {
    var left, right := MatchKeys(stored), MatchKeys(external);
    assert |left| == |stored| && |right| == |external|;
    hide MatchKeys, Matches, IsPairing, IsOrderedMatching;
    if |stored| * |external| <= 1_000_000 {
      forall other | IsPairing(stored, external, other)
        ensures |other| <= |Matches(left, right)|
      {
        PairingIsMatching(stored, external, other);
        MatchesIsLongest(left, right, other);
      }
    }
  }

  /** With distinct ids, whoever carries a stored id in the merged list is the same message as the stored one. */
  lemma {:induction false} IdentityIsKept(
    merged: seq<Message>, stored: seq<Message>, external: seq<Message>, m: nat, s: nat)
    requires multiset(merged) == multiset(MappedMessages(stored, external))
    requires DistinctIds(stored) && NoSharedIds(stored, external)
    requires m < |merged| && s < |stored| && merged[m].id == stored[s].id
    ensures IsSameMessage(merged[m], stored[s])
  {
    var mapped := MappedMessages(stored, external);
    assert merged[m] in multiset(merged);
    assert merged[m] in mapped;
    var i :| 0 <= i < |mapped| && mapped[i] == merged[m];
    var pairs, positions := MappedMessagesAre(stored, external);
    hide MappedMessages, IsSameMessage;
    if i < |external| {
      AdoptedIsSame(stored, external, pairs, mapped[i], i, s);
    } else {
      assert mapped[i] == stored[positions[i - |external|]];
      hide IsAdopted, IsPairing;
      SameAsItself(mapped[i]);
    }
  }

  lemma {:induction false} SameAsItself(message: Message)
    ensures IsSameMessage(message, message)
  {
  }

  lemma {:induction false} AdoptedIsSame(
    stored: seq<Message>, external: seq<Message>, pairs: seq<Pair>, message: Message, i: nat, s: nat)
    requires DistinctIds(stored) && NoSharedIds(stored, external) && IsPairing(stored, external, pairs)
    requires i < |external| && s < |stored| && message.id == stored[s].id
    requires forall k | 0 <= k < |pairs| && pairs[k].1 == i :: IsAdopted(message, external[i], stored[pairs[k].0])
    requires (forall k | 0 <= k < |pairs| :: pairs[k].1 != i) ==> message == external[i]
    ensures IsSameMessage(message, stored[s])
  {
    hide Trim;
    if forall k | 0 <= k < |pairs| :: pairs[k].1 != i {
      assert false;
    }
    var k :| 0 <= k < |pairs| && pairs[k].1 == i;
    assert stored[pairs[k].0].id == stored[s].id;
  }

  // ----- The merge of descriptors -----

  /** From after the compaction, and no rollover set-up message. */
  predicate IsImportable(message: Descriptor, compactedAt: Instant)
  {
    message.timestamp > compactedAt && !message.contextRolloverSetup
  }

  /** Positions of stored messages from after the compaction and importable ones with the same digest, in order. */
  ghost predicate IsTwinPairing(
    stored: seq<Descriptor>, external: seq<Descriptor>, compactedAt: Instant, pairs: seq<Pair>)
  {
    && (forall k | 0 <= k < |pairs| ::
          && pairs[k].0 < |stored| && pairs[k].1 < |external|
          && stored[pairs[k].0].timestamp > compactedAt && IsImportable(external[pairs[k].1], compactedAt)
          && stored[pairs[k].0].matchDigest == external[pairs[k].1].matchDigest)
    && (forall j, k | 0 <= j < k < |pairs| :: pairs[j].0 < pairs[k].0 && pairs[j].1 < pairs[k].1)
  }

  function Never<T>(items: seq<T>): (flags: seq<bool>)
    ensures |flags| == |items| && forall i | 0 <= i < |flags| :: !flags[i]
  {
    seq(|items|, _ => false)
  }

  lemma {:induction false} KeptIsUnflagged<T>(items: seq<T>, keep: T -> bool)
    ensures Unflagged(items, Never(items), keep) == Kept(items, keep)
  {
    if items != [] {
      KeptIsUnflagged(items[1..], keep);
      assert Never(items)[1..] == Never(items[1..]);
    }
  }

  lemma {:induction false} EligibleHas(external: seq<Descriptor>, compactedAt: Instant, from: nat, i: nat)
    requires from <= i < |external| && IsImportable(external[i], compactedAt)
    ensures i in EligibleIndexes(external, compactedAt, from)
    decreases |external| - from
  {
    if from < i {
      EligibleHas(external, compactedAt, from + 1, i);
    }
  }

  /** Such a pairing is one of the aligned lists. */
  lemma {:induction false} TwinPairingAligns(
    stored: seq<Descriptor>, external: seq<Descriptor>, compactedAt: Instant, pairs: seq<Pair>)
    returns (aligned: seq<Pair>)
    requires IsTwinPairing(stored, external, compactedAt, pairs)
    ensures IsOrderedMatching(StoredKeys(stored, compactedAt), ExternalKeys(external, compactedAt), aligned)
    ensures |aligned| == |pairs|
  {
    var isLater := (message: Descriptor) => message.timestamp > compactedAt;
    var positions := UnflaggedPositions(stored, Never(stored), isLater);
    KeptIsUnflagged(stored, isLater);
    var indexes := EligibleIndexes(external, compactedAt, 0);
    aligned := [];
    hide Kept, Unflagged, EligibleIndexes;
    for n := 0 to |pairs|
      invariant |aligned| == n
      invariant forall k | 0 <= k < n :: IsAlignedAt(positions, indexes, aligned[k], pairs[k])
    {
      hide ArePositionsOf;
      var at := AlignOne(stored, external, compactedAt, positions, pairs, n);
      aligned := aligned + [at];
    }
    AlignedKeys(stored, external, compactedAt, positions, aligned, pairs);
  }

  /** The pair of ranks stands for the pair of positions. */
  predicate IsAlignedAt(positions: seq<nat>, indexes: seq<nat>, ranks: Pair, pair: Pair)
  {
    && ranks.0 < |positions| && positions[ranks.0] == pair.0
    && ranks.1 < |indexes| && indexes[ranks.1] == pair.1
  }

  lemma {:induction false} AlignOne(
    stored: seq<Descriptor>, external: seq<Descriptor>, compactedAt: Instant, positions: seq<nat>,
    pairs: seq<Pair>, n: nat)
    returns (ranks: Pair)
    requires IsTwinPairing(stored, external, compactedAt, pairs) && n < |pairs|
    requires ArePositionsOf(positions, stored, Never(stored), (message: Descriptor) => message.timestamp > compactedAt,
                            Kept(stored, (message: Descriptor) => message.timestamp > compactedAt))
    ensures IsAlignedAt(positions, EligibleIndexes(external, compactedAt, 0), ranks, pairs[n])
  {
    hide Kept;
    var indexes := EligibleIndexes(external, compactedAt, 0);
    EligibleHas(external, compactedAt, 0, pairs[n].1);
    hide EligibleIndexes;
    assert pairs[n].0 in positions;
    var a :| 0 <= a < |positions| && positions[a] == pairs[n].0;
    var b :| 0 <= b < |indexes| && indexes[b] == pairs[n].1;
    ranks := (a, b);
  }

  lemma {:induction false} AlignedKeys(
    stored: seq<Descriptor>, external: seq<Descriptor>, compactedAt: Instant, positions: seq<nat>,
    aligned: seq<Pair>, pairs: seq<Pair>)
    requires IsTwinPairing(stored, external, compactedAt, pairs) && |aligned| == |pairs|
    requires ArePositionsOf(positions, stored, Never(stored), (message: Descriptor) => message.timestamp > compactedAt,
                            Kept(stored, (message: Descriptor) => message.timestamp > compactedAt))
    requires forall k | 0 <= k < |pairs| ::
               IsAlignedAt(positions, EligibleIndexes(external, compactedAt, 0), aligned[k], pairs[k])
    ensures IsOrderedMatching(StoredKeys(stored, compactedAt), ExternalKeys(external, compactedAt), aligned)
  {
    hide Kept, EligibleIndexes;
    forall j, k | 0 <= j < k < |aligned|
      ensures aligned[j].0 < aligned[k].0 && aligned[j].1 < aligned[k].1
    {
      assert pairs[j].0 < pairs[k].0 && pairs[j].1 < pairs[k].1;
    }
  }

  /** Within the limit no pairing of twins would leave fewer messages to import. */
  lemma {:induction false} NoPairingImportsFewer(
    stored: seq<Descriptor>, external: seq<Descriptor>, compactedAt: Instant, other: seq<Pair>)
    requires IsTwinPairing(stored, external, compactedAt, other)
    requires |StoredKeys(stored, compactedAt)| * |ExternalKeys(external, compactedAt)| <= 1_000_000
    ensures |Imported(stored, external, compactedAt)| + |other|
         <= |Kept(external, message => IsImportable(message, compactedAt))|
  {
    var aligned := TwinPairingAligns(stored, external, compactedAt, other);
    MergeImportsFewest(stored, external, compactedAt, aligned);
    SameKept(external, compactedAt);
    hide StoredKeys, ExternalKeys, Imported, Matches, Kept;
  }

  lemma {:induction false} SameKept(external: seq<Descriptor>, compactedAt: Instant)
    ensures Kept(external, message => IsImportable(message, compactedAt))
         == Kept(external, message => IsEligible(message, compactedAt))
  {
    if external != [] {
      SameKept(external[1..], compactedAt);
    }
  }

  /**
   What is imported are the importable external messages, in order, less those that are
   identified with a twin: with a stored message of the same digest from after the
   compaction, in order.
   */
  lemma {:induction false} ImportedAre(stored: seq<Descriptor>, external: seq<Descriptor>, compactedAt: Instant)
    returns (pairs: seq<Pair>, positions: seq<nat>)
    ensures IsTwinPairing(stored, external, compactedAt, pairs)
    ensures var imported := Imported(stored, external, compactedAt);
            && |imported| == |positions|
            && (forall k | 0 <= k < |positions| :: positions[k] < |external| && imported[k] == external[positions[k]])
            && (forall j, k | 0 <= j < k < |positions| :: positions[j] < positions[k])
            && (forall i | 0 <= i < |external| ::
                  i in positions <==>
                    IsImportable(external[i], compactedAt) && forall k | 0 <= k < |pairs| :: pairs[k].1 != i)
  {
    var marks := IdentifiedIndexes(stored, external, compactedAt);
    var flags := Flags(|external|, marks);
    positions := UnflaggedPositions(external, flags, message => IsEligible(message, compactedAt));
    pairs := IdentifiedPairs(stored, external, compactedAt);
    hide IdentifiedIndexes, Flags, Unflagged;
    forall i | 0 <= i < |external|
      ensures flags[i] <==> exists k :: 0 <= k < |pairs| && pairs[k].1 == i
    {
      if flags[i] {
        var k :| 0 <= k < |marks| && marks[k] == i;
        assert pairs[k].1 == i;
      }
      if k :| 0 <= k < |pairs| && pairs[k].1 == i {
        assert marks[k] == i;
      }
    }
  }

  lemma {:induction false} IdentifiedPairs(stored: seq<Descriptor>, external: seq<Descriptor>, compactedAt: Instant)
    returns (pairs: seq<Pair>)
    ensures IsTwinPairing(stored, external, compactedAt, pairs)
    ensures var marks := IdentifiedIndexes(stored, external, compactedAt);
            |pairs| == |marks| && forall k | 0 <= k < |marks| :: pairs[k].1 == marks[k]
  {
    var left, right := StoredKeys(stored, compactedAt), ExternalKeys(external, compactedAt);
    var aligned := Matches(left, right);
    MatchesIsOrdered(left, right);
    var isLater := (message: Descriptor) => message.timestamp > compactedAt;
    var positions := UnflaggedPositions(stored, Never(stored), isLater);
    KeptIsUnflagged(stored, isLater);
    var marks := IdentifiedIndexes(stored, external, compactedAt);
    pairs := PairUp(positions, marks, aligned);
    hide Matches, Kept, EligibleIndexes;
    forall k | 0 <= k < |pairs|
      ensures pairs[k].0 < |stored| && stored[pairs[k].0].timestamp > compactedAt
      ensures stored[pairs[k].0].matchDigest == external[pairs[k].1].matchDigest
    {
      assert left[aligned[k].0] == right[aligned[k].1];
      assert pairs[k].0 in positions;
    }
  }

  lemma {:induction false} PairUp(positions: seq<nat>, marks: seq<nat>, aligned: seq<Pair>) returns (pairs: seq<Pair>)
    requires |aligned| == |marks| && forall k | 0 <= k < |aligned| :: aligned[k].0 < |positions|
    ensures |pairs| == |marks|
    ensures forall k | 0 <= k < |marks| :: pairs[k] == (positions[aligned[k].0], marks[k])
  {
    pairs := seq(|marks|, k requires 0 <= k < |marks| => (positions[aligned[k].0], marks[k]));
  }
}
