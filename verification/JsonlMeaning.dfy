/** What the records of a JSONL file are, told in its bytes, and which of them are visited. */
module JsonlMeaning {
  import opened Wrappers
  import opened JsonlScan

  function Terminated(lines: seq<seq<Byte>>): seq<Byte>
  {
    if lines == [] then [] else lines[0] + ([10] + Terminated(lines[1..]))
  }

  predicate IsOneLine(bytes: seq<Byte>)
  {
    forall k | 0 <= k < |bytes| :: bytes[k] != 10
  }

  /** The line itself, or the line less the one carriage return that it ends with. */
  predicate IsRecordOf(record: seq<Byte>, line: seq<Byte>)
  {
    line == record + [13] || (line == record && (line != [] ==> line[|line| - 1] != 13))
  }

  /** The records are the lines that end with a newline; what follows the last of them is none. */
  lemma {:induction false} RecordsAreLines(bytes: seq<Byte>) returns (lines: seq<seq<Byte>>, rest: seq<Byte>)
    ensures bytes == Terminated(lines) + rest
    ensures IsOneLine(rest) && forall k | 0 <= k < |lines| :: IsOneLine(lines[k])
    ensures |lines| == |Records(bytes)| && forall k | 0 <= k < |lines| :: IsRecordOf(Records(bytes)[k], lines[k])
    decreases |bytes|
  {
    var n := NewlineIn(bytes);
    NewlineInIsFirst(bytes);
    if n == |bytes| {
      lines, rest := [], bytes;
      assert [] + bytes == bytes;
    } else {
      var later;
      later, rest := RecordsAreLines(bytes[n + 1..]);
      lines := [bytes[..n]] + later;
      StripIsRecord(bytes[..n]);
      RecordsStep(bytes);
      hide NewlineIn, Strip, Records, IsOneLine, IsRecordOf;
      TerminatedPush(bytes, n, later, rest);
      OneMoreLine(bytes[..n], later, Strip(bytes[..n]), Records(bytes[n + 1..]));
    }
  }

  lemma {:induction false} OneMoreLine(
    line: seq<Byte>, later: seq<seq<Byte>>, record: seq<Byte>, records: seq<seq<Byte>>)
    requires IsOneLine(line) && IsRecordOf(record, line) && |later| == |records|
    requires forall k | 0 <= k < |later| :: IsOneLine(later[k]) && IsRecordOf(records[k], later[k])
    ensures forall k | 0 <= k <= |later| ::
              IsOneLine(([line] + later)[k]) && IsRecordOf(([record] + records)[k], ([line] + later)[k])
  {
    hide IsOneLine, IsRecordOf;
  }

  lemma {:induction false} NewlineInIsFirst(bytes: seq<Byte>)
    ensures IsOneLine(bytes[..NewlineIn(bytes)])
  {
    if bytes != [] && bytes[0] != 10 {
      NewlineInIsFirst(bytes[1..]);
      var n := NewlineIn(bytes);
      forall k | 0 <= k < n
        ensures bytes[k] != 10
      {
        if k > 0 {
          assert bytes[k] == bytes[1..][..n - 1][k - 1];
        }
      }
    }
  }

  lemma {:induction false} StripIsRecord(line: seq<Byte>)
    ensures IsRecordOf(Strip(line), line)
  {
  }

  lemma {:induction false} TerminatedPush(bytes: seq<Byte>, n: nat, later: seq<seq<Byte>>, rest: seq<Byte>)
    requires n < |bytes| && bytes[n] == 10 && bytes[n + 1..] == Terminated(later) + rest
    ensures bytes == Terminated([bytes[..n]] + later) + rest
  {
    assert ([bytes[..n]] + later)[1..] == later;
    assert bytes == bytes[..n] + ([10] + bytes[n + 1..]);
    hide Terminated;
    Regroup(bytes[..n], Terminated(later), rest);
  }

  lemma {:induction false} Regroup(a: seq<Byte>, b: seq<Byte>, c: seq<Byte>)
    ensures a + ([10] + (b + c)) == a + ([10] + b) + c
  {
  }

  /** The positions of the records that can be read, in order, and what they hold. */
  ghost predicate AreVisits<V(!new)>(
    visits: seq<V>, positions: seq<nat>, records: seq<seq<Byte>>, parse: seq<Byte> -> Option<V>)
  {
    && |positions| == |visits|
    && (forall k | 0 <= k < |visits| ::
          positions[k] < |records| && parse(records[positions[k]]) == Some(visits[k]))
    && (forall j, k | 0 <= j < k < |positions| :: positions[j] < positions[k])
    && (forall i | 0 <= i < |records| :: i in positions <==> parse(records[i]).Some?)
  }

  /** Every record that can be read is visited, in order; the others are passed over. */
  lemma {:induction false} VisitsAreReadable<V(!new)>(records: seq<seq<Byte>>, parse: seq<Byte> -> Option<V>)
    returns (positions: seq<nat>)
    ensures AreVisits(Visits(records, parse), positions, records, parse)
  {
    if records == [] {
      positions := [];
    } else {
      var n := |records| - 1;
      var before, record := records[..n], records[n];
      positions := VisitsAreReadable(before, parse);
      assert records == before + [record];
      VisitsAppend(before, [record], parse);
      var visits := Visits(before, parse);
      assert Visits([record], parse) == FirstVisit(record, parse) + [];
      if parse(record).None? {
        assert visits + [] == visits;
        UnreadableAddsNothing(visits, positions, records, parse);
      } else {
        OneMoreVisit(visits, positions, records, parse);
        positions := positions + [n];
      }
    }
  }

  lemma {:induction false} UnreadableAddsNothing<V(!new)>(
    visits: seq<V>, positions: seq<nat>, records: seq<seq<Byte>>, parse: seq<Byte> -> Option<V>)
    requires records != [] && AreVisits(visits, positions, records[..|records| - 1], parse)
    requires parse(records[|records| - 1]).None?
    ensures AreVisits(visits, positions, records, parse)
  {
    var n := |records| - 1;
    forall i | 0 <= i < |records|
      ensures i in positions <==> parse(records[i]).Some?
    {
      assert i < n ==> records[..n][i] == records[i];
    }
  }

  lemma {:induction false} OneMoreVisit<V(!new)>(
    visits: seq<V>, positions: seq<nat>, records: seq<seq<Byte>>, parse: seq<Byte> -> Option<V>)
    requires records != [] && AreVisits(visits, positions, records[..|records| - 1], parse)
    requires parse(records[|records| - 1]).Some?
    ensures AreVisits(visits + [parse(records[|records| - 1]).value], positions + [|records| - 1], records, parse)
  {
    var n := |records| - 1;
    forall i | 0 <= i < |records|
      ensures i in positions + [n] <==> parse(records[i]).Some?
    {
      assert i < n ==> records[..n][i] == records[i];
    }
    assert forall k | 0 <= k < |positions| :: records[..n][positions[k]] == records[positions[k]];
  }
}
