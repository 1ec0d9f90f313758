/** The bounded cache of loaded provider transcripts and its least-recently-used eviction. */
module MessageCache {

  const EXTERNAL_MESSAGE_CACHE_MAX_ENTRIES: nat := 8
  const EXTERNAL_MESSAGE_CACHE_MAX_BYTES: nat := 64 * 1024 * 1024

  datatype CachedMessages = CachedMessages(estimatedBytes: nat, lastAccess: nat)

  ghost function TotalBytes(messages: map<string, CachedMessages>): nat
  {
    if messages == map[] then 0
    else
      var key :| key in messages;
      messages[key].estimatedBytes + TotalBytes(messages - {key})
  }

  lemma {:induction false} TotalWithout(messages: map<string, CachedMessages>, key: string)
    requires key in messages
    ensures TotalBytes(messages) == messages[key].estimatedBytes + TotalBytes(messages - {key})
  {
    var first :| first in messages && TotalBytes(messages)
          == messages[first].estimatedBytes + TotalBytes(messages - {first});
    if first != key {
      TotalWithout(messages - {first}, key);
      TotalWithout(messages - {key}, first);
      assert messages - {first} - {key} == messages - {key} - {first};
    }
  }

  predicate Fits(entries: nat, bytes: nat)
  {
    entries <= EXTERNAL_MESSAGE_CACHE_MAX_ENTRIES && bytes <= EXTERNAL_MESSAGE_CACHE_MAX_BYTES
  }

  class ExternalSessionCache {
    var messages: map<string, CachedMessages>
    var messageBytes: nat

    /** The byte counter is the sum over the entries. */
    ghost predicate Accounted()
      reads this
    {
      messageBytes == TotalBytes(messages)
    }

    /**
     Evicts the least recently used entries, and no more of them than the limits need:
     the last one to go would not have fitted beside those that stay.
     */
    method Evict()
      modifies this
      ensures old(Accounted()) ==> Accounted() && Fits(|messages|, messageBytes)
      ensures messages == map[] || Fits(|messages|, messageBytes)
      ensures messages.Keys <= old(messages.Keys) && forall key | key in messages :: messages[key] == old(messages)[key]
      ensures forall gone, key | gone in old(messages) && gone !in messages && key in messages ::
                old(messages)[gone].lastAccess <= messages[key].lastAccess
      ensures old(Accounted()) && messages != old(messages) ==>
                exists gone :: gone in old(messages) && gone !in messages
                               && !Fits(|messages| + 1, messageBytes + old(messages)[gone].estimatedBytes)
    {
      while |messages| > EXTERNAL_MESSAGE_CACHE_MAX_ENTRIES || messageBytes > EXTERNAL_MESSAGE_CACHE_MAX_BYTES
        invariant old(Accounted()) ==> Accounted()
        invariant OldestAreGone(old(messages), messages)
        invariant old(Accounted()) && messages != old(messages) ==>
                    exists gone :: gone in old(messages) && gone !in messages
                                   && !Fits(|messages| + 1, messageBytes + old(messages)[gone].estimatedBytes)
        decreases |messages|
      {
        if messages == map[] {
          break;
        }
        ghost var oldest := LeastRecent(messages);
        var key :| key in messages && forall other | other in messages ::
              messages[key].lastAccess <= messages[other].lastAccess;
        var removed := messages[key];
        TotalWithout(messages, key);
        OldestGoesNext(old(messages), messages, key);
        OneFewer(messages, key);
        messages := messages - {key};
        messageBytes := if messageBytes >= removed.estimatedBytes then messageBytes - removed.estimatedBytes else 0;
        assert key in old(messages) && key !in messages;
      }
    }
  }

  /** What stays is unchanged, and was used no earlier than what went. */
  ghost predicate OldestAreGone(before: map<string, CachedMessages>, after: map<string, CachedMessages>)
  {
    && after.Keys <= before.Keys && (forall key | key in after :: after[key] == before[key])
    && (forall gone, key | gone in before && gone !in after && key in after ::
          before[gone].lastAccess <= after[key].lastAccess)
  }

  lemma {:induction false} OldestGoesNext(
    before: map<string, CachedMessages>, now: map<string, CachedMessages>, key: string)
    requires OldestAreGone(before, now) && key in now
    requires forall other | other in now :: now[key].lastAccess <= now[other].lastAccess
    ensures OldestAreGone(before, now - {key})
  {
  }

  lemma {:induction false} OneFewer(messages: map<string, CachedMessages>, key: string)
    requires key in messages
    ensures |messages - {key}| + 1 == |messages|
  {
    assert messages.Keys == (messages - {key}).Keys + {key};
  }

  lemma {:induction false} LeastRecent(messages: map<string, CachedMessages>) returns (key: string)
    requires messages != map[]
    ensures key in messages && forall other | other in messages ::
          messages[key].lastAccess <= messages[other].lastAccess
  {
    key :| key in messages;
    var rest := messages.Keys - {key};
    while rest != {}
      invariant key in messages && rest <= messages.Keys
      invariant forall other | other in messages.Keys - rest :: messages[key].lastAccess <= messages[other].lastAccess
    {
      var other :| other in rest;
      rest := rest - {other};
      if messages[other].lastAccess < messages[key].lastAccess {
        key := other;
      }
    }
  }
}
