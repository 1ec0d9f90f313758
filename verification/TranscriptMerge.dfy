/**
 Merging the stored transcript with the provider's own transcript of the same session.
 Messages are identified by an order-preserving matching of equal keys; what the
 matching leaves unidentified is imported, and the result is stably sorted by time.
 */
module TranscriptMerge {
  import opened Wrappers
  import opened Text
  import opened Alignment
  import opened StableSort

  /** Points in time, in any fixed unit. */
  type Instant = int

  // ----- Selecting entries by flag -----

  /** A flag per entry, raised at the marked positions. */
  function Flags(n: nat, marks: seq<nat>): (flags: seq<bool>)
    requires forall k | 0 <= k < |marks| :: marks[k] < n
    ensures |flags| == n
    ensures forall i | 0 <= i < n :: flags[i] <==> i in marks
  {
    if marks == [] then seq(n, _ => false)
    else
      var last := |marks| - 1;
      assert marks == marks[..last] + [marks[last]];
      Flags(n, marks[..last])[marks[last] := true]
  }

  lemma {:induction false} FlagNext(n: nat, marks: seq<nat>, k: nat)
    requires k < |marks| && forall j | 0 <= j < |marks| :: marks[j] < n
    ensures Flags(n, marks[..k + 1]) == Flags(n, marks[..k])[marks[k] := true]
  {
    assert marks[..k + 1][..k] == marks[..k];
  }

  function Kept<T>(items: seq<T>, keep: T -> bool): seq<T>
  {
    if items == [] then [] else (if keep(items[0]) then [items[0]] else []) + Kept(items[1..], keep)
  }

  /** The entries worth keeping whose flag is down, in order. */
  function Unflagged<T>(items: seq<T>, flags: seq<bool>, keep: T -> bool): seq<T>
    requires |items| == |flags|
  {
    if items == [] then []
    else
      (if !flags[0] && keep(items[0]) then [items[0]] else []) + Unflagged(items[1..], flags[1..], keep)
  }

  function Raised(flags: seq<bool>): nat
  {
    if flags == [] then 0 else (if flags[0] then 1 else 0) + Raised(flags[1..])
  }

  lemma {:induction false} RaiseOne(flags: seq<bool>, i: nat)
    requires i < |flags| && !flags[i]
    ensures Raised(flags[i := true]) == Raised(flags) + 1
  {
    if i == 0 {
      assert flags[0 := true][1..] == flags[1..];
    } else {
      RaiseOne(flags[1..], i - 1);
      assert flags[i := true][1..] == flags[1..][i - 1 := true];
    }
  }

  lemma {:induction false} NoneRaised(flags: seq<bool>)
    requires forall i | 0 <= i < |flags| :: !flags[i]
    ensures Raised(flags) == 0
  {
    if flags != [] {
      NoneRaised(flags[1..]);
    }
  }

  lemma {:induction false} DistinctMarksAllCount(n: nat, marks: seq<nat>)
    requires forall k | 0 <= k < |marks| :: marks[k] < n
    requires forall j, k | 0 <= j < k < |marks| :: marks[j] != marks[k]
    ensures Raised(Flags(n, marks)) == |marks|
  {
    if marks == [] {
      NoneRaised(Flags(n, marks));
    } else {
      var last := |marks| - 1;
      DistinctMarksAllCount(n, marks[..last]);
      assert !Flags(n, marks[..last])[marks[last]];
      RaiseOne(Flags(n, marks[..last]), marks[last]);
    }
  }

  /** Conservation: an entry worth keeping is either flagged or in the selection. */
  lemma {:induction false} UnflaggedCount<T>(items: seq<T>, flags: seq<bool>, keep: T -> bool)
    requires |items| == |flags|
    requires forall i | 0 <= i < |items| && flags[i] :: keep(items[i])
    ensures |Unflagged(items, flags, keep)| + Raised(flags) == |Kept(items, keep)|
  {
    if items != [] {
      UnflaggedCount(items[1..], flags[1..], keep);
    }
  }

  lemma {:induction false} UnflaggedHas<T>(items: seq<T>, flags: seq<bool>, keep: T -> bool, i: nat)
    requires i < |items| == |flags| && !flags[i] && keep(items[i])
    ensures items[i] in Unflagged(items, flags, keep)
  {
    if i > 0 {
      UnflaggedHas(items[1..], flags[1..], keep, i - 1);
    }
  }

  lemma {:induction false} UnflaggedOnly<T>(items: seq<T>, flags: seq<bool>, keep: T -> bool, k: nat) returns (i: nat)
    requires |items| == |flags| && k < |Unflagged(items, flags, keep)|
    ensures i < |items| && !flags[i] && keep(items[i]) && items[i] == Unflagged(items, flags, keep)[k]
  {
    var here := !flags[0] && keep(items[0]);
    if here && k == 0 {
      i := 0;
    } else {
      i := UnflaggedOnly(items[1..], flags[1..], keep, if here then k - 1 else k);
      i := i + 1;
    }
  }

  // ----- Descriptors of the active context -----

  datatype DescriptorSource = Stored(id: string) | External(index: nat)

  /** `matchDigest` stands for the digest of the role and the trimmed content. */
  datatype Descriptor = Descriptor(
    source: DescriptorSource, timestamp: Instant, matchDigest: nat, contextRolloverSetup: bool)

  predicate IsEligible(message: Descriptor, compactedAt: Instant)
  {
    message.timestamp > compactedAt && !message.contextRolloverSetup
  }

  const DESCRIPTOR_TIME := (message: Descriptor) => message.timestamp

  function StoredKeys(stored: seq<Descriptor>, compactedAt: Instant): seq<nat>
  {
    var later := Kept(stored, (message: Descriptor) => message.timestamp > compactedAt);
    seq(|later|, k requires 0 <= k < |later| => later[k].matchDigest)
  }

  /** The positions at or after `from` of the eligible external messages. */
  function EligibleIndexes(external: seq<Descriptor>, compactedAt: Instant, from: nat): (indexes: seq<nat>)
    requires from <= |external|
    ensures forall k | 0 <= k < |indexes| ::
              from <= indexes[k] < |external| && IsEligible(external[indexes[k]], compactedAt)
    ensures forall j, k | 0 <= j < k < |indexes| :: indexes[j] < indexes[k]
    decreases |external| - from
  {
    if from == |external| then []
    else (if IsEligible(external[from], compactedAt) then [from] else []) +
         EligibleIndexes(external, compactedAt, from + 1)
  }

  function ExternalKeys(external: seq<Descriptor>, compactedAt: Instant): seq<nat>
  {
    var indexes := EligibleIndexes(external, compactedAt, 0);
    seq(|indexes|, k requires 0 <= k < |indexes| => external[indexes[k]].matchDigest)
  }

  /** The external positions that the aligner identifies with a stored message. */
  function IdentifiedIndexes(
    stored: seq<Descriptor>, external: seq<Descriptor>, compactedAt: Instant): (marks: seq<nat>)
    ensures forall k | 0 <= k < |marks| :: marks[k] < |external| && IsEligible(external[marks[k]], compactedAt)
    ensures forall j, k | 0 <= j < k < |marks| :: marks[j] < marks[k]
  {
    var indexes := EligibleIndexes(external, compactedAt, 0);
    var pairs := Matches(StoredKeys(stored, compactedAt), ExternalKeys(external, compactedAt));
    MatchesIsOrdered(StoredKeys(stored, compactedAt), ExternalKeys(external, compactedAt));
    seq(|pairs|, k requires 0 <= k < |pairs| => indexes[pairs[k].1])
  }

  function Imported(stored: seq<Descriptor>, external: seq<Descriptor>, compactedAt: Instant): seq<Descriptor>
  {
    Unflagged(external, Flags(|external|, IdentifiedIndexes(stored, external, compactedAt)),
              message => IsEligible(message, compactedAt))
  }

  method MergeActiveContextMessageDescriptors(
    stored: seq<Descriptor>, external: seq<Descriptor>, compactedAt: Option<Instant>)
    returns (merged: seq<Descriptor>)
    ensures compactedAt.None? ==> merged == stored
    ensures compactedAt.Some? ==>
              IsStableSorting(merged, stored + Imported(stored, external, compactedAt.value), DESCRIPTOR_TIME)
    ensures compactedAt.Some? ==>
              multiset(merged) == multiset(stored) + multiset(Imported(stored, external, compactedAt.value))
  {
    if compactedAt.None? {
      return stored;
    }
    var at := compactedAt.value;
    var externalIndexes := EligibleIndexes(external, at, 0);
    var pairs := OrderedTextMatches(StoredKeys(stored, at), ExternalKeys(external, at));
    ghost var marks := IdentifiedIndexes(stored, external, at);
    var matchedExternal := new bool[|external|](_ => false);
    for k := 0 to |pairs|
      invariant matchedExternal[..] == Flags(|external|, marks[..k])
    {
      FlagNext(|external|, marks, k);
      matchedExternal[externalIndexes[pairs[k].1]] := true;
    }
    assert marks[..|pairs|] == marks;
    merged := stored + Unflagged(external, matchedExternal[..], message => IsEligible(message, at));
    SortIsStable(merged, DESCRIPTOR_TIME);
    merged := Sort(merged, DESCRIPTOR_TIME);
  }

  /** Among messages of one instant the stored ones come first, then the imports, each in their own order. */
  lemma {:induction false} MergeOrderAtInstant(
    merged: seq<Descriptor>, stored: seq<Descriptor>, imported: seq<Descriptor>, at: Instant)
    requires IsStableSorting(merged, stored + imported, DESCRIPTOR_TIME)
    ensures WithKey(merged, DESCRIPTOR_TIME, at)
          == WithKey(stored, DESCRIPTOR_TIME, at) + WithKey(imported, DESCRIPTOR_TIME, at)
  {
    WithKeyAppend(stored, imported, DESCRIPTOR_TIME, at);
  }

  lemma {:induction false} EligibleCount(external: seq<Descriptor>, compactedAt: Instant, from: nat)
    requires from <= |external|
    ensures |EligibleIndexes(external, compactedAt, from)|
         == |Kept(external[from..], message => IsEligible(message, compactedAt))|
    decreases |external| - from
  {
    if from < |external| {
      EligibleCount(external, compactedAt, from + 1);
      assert external[from..][1..] == external[from + 1..];
    }
  }

  /**
   Each identification saves exactly one import: what is imported and what is identified
   are together the eligible messages. Within the table limit, no order-preserving
   identification of equal messages would import fewer.
   */
  lemma {:induction false} MergeImportsFewest(
    stored: seq<Descriptor>, external: seq<Descriptor>, compactedAt: Instant, other: seq<Pair>)
    ensures var left, right := StoredKeys(stored, compactedAt), ExternalKeys(external, compactedAt);
            && |Imported(stored, external, compactedAt)| + |Matches(left, right)| == |right|
            && |right| == |Kept(external, message => IsEligible(message, compactedAt))|
            && (|left| * |right| <= ORDERED_TEXT_MATCH_MATRIX_MAX_CELLS && IsOrderedMatching(left, right, other) ==>
                  |Imported(stored, external, compactedAt)| + |other| <= |right|)
  {
    var keep := (message: Descriptor) => IsEligible(message, compactedAt);
    var marks := IdentifiedIndexes(stored, external, compactedAt);
    DistinctMarksAllCount(|external|, marks);
    UnflaggedCount(external, Flags(|external|, marks), keep);
    EligibleCount(external, compactedAt, 0);
    assert external[0..] == external;
    var left, right := StoredKeys(stored, compactedAt), ExternalKeys(external, compactedAt);
    if |left| * |right| <= ORDERED_TEXT_MATCH_MATRIX_MAX_CELLS && IsOrderedMatching(left, right, other) {
      MatchesIsLongest(left, right, other);
    }
  }

  lemma {:induction false} KeptOnly<T>(items: seq<T>, keep: T -> bool, k: nat) returns (i: nat)
    requires k < |Kept(items, keep)|
    ensures i < |items| && keep(items[i]) && items[i] == Kept(items, keep)[k]
  {
    if keep(items[0]) && k == 0 {
      i := 0;
    } else {
      i := KeptOnly(items[1..], keep, if keep(items[0]) then k - 1 else k);
      i := i + 1;
    }
  }

  /** An identified external message has the digest of a stored one from after the compaction. */
  lemma {:induction false} IdentifiedHasTwin(
    stored: seq<Descriptor>, external: seq<Descriptor>, compactedAt: Instant, k: nat)
    returns (s: nat)
    requires k < |IdentifiedIndexes(stored, external, compactedAt)|
    ensures s < |stored| && stored[s].timestamp > compactedAt
    ensures stored[s].matchDigest == external[IdentifiedIndexes(stored, external, compactedAt)[k]].matchDigest
  {
    var left, right := StoredKeys(stored, compactedAt), ExternalKeys(external, compactedAt);
    MatchesIsOrdered(left, right);
    var pair := Matches(left, right)[k];
    assert left[pair.0] == right[pair.1];
    s := KeptOnly(stored, (m: Descriptor) => m.timestamp > compactedAt, pair.0);
  }

  /**
   No eligible external message is lost: it is imported, or a stored message from after
   the compaction has the same digest.
   */
  lemma {:induction false} MergeLosesNothing(
    stored: seq<Descriptor>, external: seq<Descriptor>, compactedAt: Instant, i: nat)
    requires i < |external| && IsEligible(external[i], compactedAt)
    ensures || external[i] in Imported(stored, external, compactedAt)
            || exists s | 0 <= s < |stored| ::
                 stored[s].timestamp > compactedAt && stored[s].matchDigest == external[i].matchDigest
  {
    var marks := IdentifiedIndexes(stored, external, compactedAt);
    if i in marks {
      var k :| 0 <= k < |marks| && marks[k] == i;
      var s := IdentifiedHasTwin(stored, external, compactedAt, k);
    } else {
      UnflaggedHas(external, Flags(|external|, marks), message => IsEligible(message, compactedAt), i);
    }
  }

  /** Only eligible external messages are imported. */
  lemma {:induction false} ImportedIsEligible(
    stored: seq<Descriptor>, external: seq<Descriptor>, compactedAt: Instant, k: nat)
    requires k < |Imported(stored, external, compactedAt)|
    ensures exists i | 0 <= i < |external| ::
              IsEligible(external[i], compactedAt) && external[i] == Imported(stored, external, compactedAt)[k]
  {
    var flags := Flags(|external|, IdentifiedIndexes(stored, external, compactedAt));
    var i := UnflaggedOnly(external, flags, message => IsEligible(message, compactedAt), k);
  }

  // ----- Messages of a mapped session -----

  datatype Role = System | User | Assistant | Tool

  /** A JSON value: the one literal the merge writes, or anything else. */
  datatype Json = True | Other(token: nat)

  datatype Metadata = Object(fields: map<string, Json>) | NotObject(token: nat)

  datatype Message = Message(id: string, role: Role, content: string, timestamp: Instant, metadata: Metadata)

  const MESSAGE_TIME := (message: Message) => message.timestamp

  /** Role and trimmed content; the source joins them with a NUL that no role name contains. */
  function MatchKey(message: Message): (Role, string)
  {
    (message.role, Trim(message.content))
  }

  function MatchKeys(messages: seq<Message>): seq<(Role, string)>
  {
    seq(|messages|, k requires 0 <= k < |messages| => MatchKey(messages[k]))
  }

  /** The provider's message under the stored message's identity. */
  function Adopt(external: Message, stored: Message): Message
  {
    external.(
      id := stored.id,
      metadata :=
        if external.metadata.Object? && stored.metadata.Object?
        then Object(external.metadata.fields + stored.metadata.fields + map["external" := True])
        else external.metadata)
  }

  /** The external list after the first `count` identified messages were adopted. */
  function Adopted(stored: seq<Message>, external: seq<Message>, pairs: seq<Pair>, count: nat): (result: seq<Message>)
    requires IsOrderedMatching(MatchKeys(stored), MatchKeys(external), pairs) && count <= |pairs|
    ensures |result| == |external|
    ensures forall k | 0 <= k < count :: result[pairs[k].1] == Adopt(external[pairs[k].1], stored[pairs[k].0])
    ensures forall i | 0 <= i < |external| && (forall k | 0 <= k < count :: pairs[k].1 != i) :: result[i] == external[i]
  {
    if count == 0 then external
    else
      var (storedIndex, externalIndex) := pairs[count - 1];
      Adopted(stored, external, pairs, count - 1)[externalIndex := Adopt(external[externalIndex], stored[storedIndex])]
  }

  function Lefts(pairs: seq<Pair>): (lefts: seq<nat>)
    ensures |lefts| == |pairs| && forall k | 0 <= k < |pairs| :: lefts[k] == pairs[k].0
  {
    seq(|pairs|, k requires 0 <= k < |pairs| => pairs[k].0)
  }

  function Orphans(stored: seq<Message>, pairs: seq<Pair>): seq<Message>
    requires forall k | 0 <= k < |pairs| :: pairs[k].0 < |stored|
  {
    Unflagged(stored, Flags(|stored|, Lefts(pairs)), (message: Message) => message.role == System)
  }

  function MappedMessages(stored: seq<Message>, external: seq<Message>): seq<Message>
  {
    var pairs := Matches(MatchKeys(stored), MatchKeys(external));
    MatchesIsOrdered(MatchKeys(stored), MatchKeys(external));
    Adopted(stored, external, pairs, |pairs|) + Orphans(stored, pairs)
  }

  method MergeMappedExternalMessages(stored: seq<Message>, external: seq<Message>) returns (merged: seq<Message>)
    ensures IsStableSorting(merged, MappedMessages(stored, external), MESSAGE_TIME)
    ensures multiset(merged) == multiset(MappedMessages(stored, external))
  {
    var pairs := OrderedTextMatches(MatchKeys(stored), MatchKeys(external));
    var updated, matchedStored := AdoptMatches(stored, external, pairs);
    merged := updated + Unflagged(stored, matchedStored[..], (message: Message) => message.role == System);
    SortIsStable(merged, MESSAGE_TIME);
    merged := Sort(merged, MESSAGE_TIME);
  }

  /** The marking loop of the merge. */
  method AdoptMatches(stored: seq<Message>, external: seq<Message>, pairs: seq<Pair>)
    returns (updated: seq<Message>, matchedStored: array<bool>)
    requires IsOrderedMatching(MatchKeys(stored), MatchKeys(external), pairs)
    ensures updated == Adopted(stored, external, pairs, |pairs|)
    ensures matchedStored[..] == Flags(|stored|, Lefts(pairs))
  {
    matchedStored := new bool[|stored|](_ => false);
    ghost var marks := Lefts(pairs);
    updated := external;
    for k := 0 to |pairs|
      invariant updated == Adopted(stored, external, pairs, k)
      invariant matchedStored[..] == Flags(|stored|, marks[..k])
    {
      var (storedIndex, externalIndex) := pairs[k];
      assert updated[externalIndex] == external[externalIndex];
      FlagNext(|stored|, marks, k);
      matchedStored[storedIndex] := true;
      updated := updated[externalIndex := Adopt(updated[externalIndex], stored[storedIndex])];
    }
    assert marks[..|pairs|] == marks;
  }

  /** Adoption changes identity and metadata only, so every provider message survives. */
  lemma {:induction false} AdoptedKeepsBodies(stored: seq<Message>, external: seq<Message>, pairs: seq<Pair>, i: nat)
    requires IsOrderedMatching(MatchKeys(stored), MatchKeys(external), pairs) && i < |external|
    ensures var message := Adopted(stored, external, pairs, |pairs|)[i];
            && SameBody(message, external[i])
            && (message.id == external[i].id
                || exists k | 0 <= k < |pairs| :: pairs[k].1 == i && message.id == stored[pairs[k].0].id)
  {
    AdoptedEntry(stored, external, pairs, |pairs|, i);
  }

  lemma {:induction false} AdoptedEntry(
    stored: seq<Message>, external: seq<Message>, pairs: seq<Pair>, count: nat, i: nat)
    requires IsOrderedMatching(MatchKeys(stored), MatchKeys(external), pairs) && count <= |pairs| && i < |external|
    ensures SameBody(Adopted(stored, external, pairs, count)[i], external[i])
    ensures
      var message := Adopted(stored, external, pairs, count)[i];
      message.id == external[i].id || exists k | 0 <= k < count ::
          pairs[k].1 == i && message.id == stored[pairs[k].0].id
  {
    if count > 0 {
      AdoptedEntry(stored, external, pairs, count - 1, i);
      hide Adopt;
      AdoptTakesIdentity(external[i], stored[pairs[count - 1].0]);
    }
  }

  predicate SameBody(a: Message, b: Message)
  {
    a.role == b.role && a.content == b.content && a.timestamp == b.timestamp
  }

  lemma {:induction false} AdoptTakesIdentity(external: Message, stored: Message)
    ensures Adopt(external, stored).id == stored.id && SameBody(Adopt(external, stored), external)
  {
  }

  ghost predicate DistinctIds(messages: seq<Message>)
  {
    forall j, k | 0 <= j < k < |messages| :: messages[j].id != messages[k].id
  }

  ghost predicate NoSharedIds(a: seq<Message>, b: seq<Message>)
  {
    forall i, j | 0 <= i < |a| && 0 <= j < |b| :: a[i].id != b[j].id
  }

  lemma {:induction false} AdoptedIdsDistinct(stored: seq<Message>, external: seq<Message>, pairs: seq<Pair>)
    requires IsOrderedMatching(MatchKeys(stored), MatchKeys(external), pairs)
    requires DistinctIds(stored) && DistinctIds(external) && NoSharedIds(stored, external)
    ensures DistinctIds(Adopted(stored, external, pairs, |pairs|))
  {
    var adopted := Adopted(stored, external, pairs, |pairs|);
    forall i, j | 0 <= i < j < |adopted|
      ensures adopted[i].id != adopted[j].id
    {
      AdoptedKeepsBodies(stored, external, pairs, i);
      AdoptedKeepsBodies(stored, external, pairs, j);
    }
  }

  lemma {:induction false} OrphanIdsAreFree(stored: seq<Message>, external: seq<Message>, pairs: seq<Pair>)
    requires IsOrderedMatching(MatchKeys(stored), MatchKeys(external), pairs)
    requires DistinctIds(stored) && NoSharedIds(stored, external)
    ensures NoSharedIds(Adopted(stored, external, pairs, |pairs|), Orphans(stored, pairs))
  {
    var adopted, orphans := Adopted(stored, external, pairs, |pairs|), Orphans(stored, pairs);
    forall i, k | 0 <= i < |adopted| && 0 <= k < |orphans|
      ensures adopted[i].id != orphans[k].id
    {
      var s := UnflaggedOnly(stored, Flags(|stored|, Lefts(pairs)), (message: Message) => message.role == System, k);
      AdoptedKeepsBodies(stored, external, pairs, i);
      forall m | 0 <= m < |pairs|
        ensures pairs[m].0 != s
      {
        assert Lefts(pairs)[m] in Lefts(pairs);
      }
    }
  }

  /** A stored identity is given to at most one message of the result. */
  lemma {:induction false} MappedMergeKeepsIdsDistinct(stored: seq<Message>, external: seq<Message>)
    requires DistinctIds(stored) && DistinctIds(external) && NoSharedIds(stored, external)
    ensures DistinctIds(MappedMessages(stored, external))
  {
    var pairs := Matches(MatchKeys(stored), MatchKeys(external));
    MatchesIsOrdered(MatchKeys(stored), MatchKeys(external));
    AdoptedIdsDistinct(stored, external, pairs);
    OrphanIdsAreFree(stored, external, pairs);
    UnflaggedKeepsIdsDistinct(stored, Flags(|stored|, Lefts(pairs)), (message: Message) => message.role == System);
    DistinctIdsAppend(Adopted(stored, external, pairs, |pairs|), Orphans(stored, pairs));
  }

  lemma {:induction false} DistinctIdsAppend(a: seq<Message>, b: seq<Message>)
    requires DistinctIds(a) && DistinctIds(b) && NoSharedIds(a, b)
    ensures DistinctIds(a + b)
  {
  }

  lemma {:induction false} UnflaggedKeepsIdsDistinct(items: seq<Message>, flags: seq<bool>, keep: Message -> bool)
    requires |items| == |flags| && DistinctIds(items)
    ensures DistinctIds(Unflagged(items, flags, keep))
  {
    if items != [] {
      UnflaggedKeepsIdsDistinct(items[1..], flags[1..], keep);
      var rest := Unflagged(items[1..], flags[1..], keep);
      forall k | 0 <= k < |rest|
        ensures rest[k].id != items[0].id
      {
        var i := UnflaggedOnly(items[1..], flags[1..], keep, k);
      }
    }
  }
}
