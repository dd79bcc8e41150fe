/**
 * indexers/receiver.starknet.indexer.ts: the `transform` callback of the
 * Transfer-event indexer. For each block it turns every event, in order,
 * into one row of the `users` table and issues one bulk insert of those
 * rows, or none when the block has no events. A block whose number is
 * missing or zero is skipped. Normalising an address can throw, and a
 * throw aborts the transform before anything is inserted.
 */
module Receiver {
  import opened Wrappers
  import opened Numerals
  import opened Utils

  /** The part of a block header the transform reads; `blockNumber` may be absent. */
  datatype Header = Header(blockNumber: Option<int>, timestampMs: int)

  /** A Transfer event: its keys (the recipient is `keys[2]`) and where it sits in the block. */
  datatype Event = Event(keys: seq<string>, transactionIndex: int, eventIndex: int, transactionHash: string)

  /** A row of the `users` table. */
  datatype UserRow = UserRow(userAddress: string, blockNumber: int, txIndex: int, eventIndex: int,
                             txHash: string, timestamp: int, cursor: int)

  /** `header.blockNumber` is truthy: present and not `0n`. */
  predicate BlockIndexed(header: Header) {
    header.blockNumber.Some? && header.blockNumber.value != 0
  }

  /** `Math.round(ms / 1000)`: to the nearest second, halves upwards. */
  function RoundSeconds(ms: int): (s: int)
    ensures 1000 * s - 500 <= ms < 1000 * s + 500
  {
    (ms + 500) / 1000
  }

  /** `event.keys[2]`: `undefined` when the event has fewer than three keys. */
  function RecipientKey(keys: seq<string>): AddressInput {
    if |keys| > 2 then Text(keys[2]) else Missing
  }

  /** The row for one event, or `None` when normalising its recipient throws. */
  function RowFor(header: Header, event: Event): Option<UserRow>
    requires BlockIndexed(header)
  {
    match Standardise(RecipientKey(event.keys))
    case None => None
    case Some(address) =>
      Some(UserRow(address, header.blockNumber.value, event.transactionIndex, event.eventIndex,
                   event.transactionHash, RoundSeconds(header.timestampMs), header.blockNumber.value))
  }

  /** Every event of the block has a recipient that normalises. */
  predicate AllRowsBuild(header: Header, events: seq<Event>)
    requires BlockIndexed(header)
  {
    forall i :: 0 <= i < |events| ==> RowFor(header, events[i]).Some?
  }

  /** `records`: the rows of a block, one per event in event order. */
  function Rows(header: Header, events: seq<Event>): seq<UserRow>
    requires BlockIndexed(header) && AllRowsBuild(header, events)
  {
    seq(|events|, i requires 0 <= i < |events| => RowFor(header, events[i]).value)
  }

  /**
   * `transform`: the inserts issued for one block (at most one), and whether
   * the transform threw. A skipped block issues nothing; a block whose every
   * recipient normalises issues one insert of its rows when it has events and
   * none when it has none; otherwise the transform throws before inserting.
   */
  method Transform(header: Header, events: seq<Event>) returns (inserted: seq<seq<UserRow>>, threw: bool)
    ensures !BlockIndexed(header) ==> inserted == [] && !threw
    ensures BlockIndexed(header) ==> (threw <==> !AllRowsBuild(header, events))
    ensures threw ==> inserted == []
    ensures BlockIndexed(header) && !threw ==>
              inserted == if |events| == 0 then [] else [Rows(header, events)]
  {
    inserted, threw := [], false;
    if !BlockIndexed(header) {
      return;
    }
    var records: seq<UserRow> := [];
    var i := 0;
    while i < |events|
      invariant 0 <= i <= |events|
      invariant RowsUpTo(header, events, i, records)
    {
      var row := RowFor(header, events[i]);
      if row.None? {
        RowFails(header, events, i);
        return [], true;
      }
      RowsStep(header, events, i, records, row.value);
      records := records + [row.value];
      i := i + 1;
    }
    RowsComplete(header, events, records);
    if |records| > 0 {
      inserted := [records];
    }
  }

  /** `records` holds the rows of the first `i` events, in order. */
  ghost predicate RowsUpTo(header: Header, events: seq<Event>, i: nat, records: seq<UserRow>)
    requires BlockIndexed(header)
  {
    i <= |events| && |records| == i && forall k :: 0 <= k < i ==> RowFor(header, events[k]) == Some(records[k])
  }

  lemma RowsStep(header: Header, events: seq<Event>, i: nat, records: seq<UserRow>, row: UserRow)
    requires BlockIndexed(header) && i < |events| && RowsUpTo(header, events, i, records)
    requires RowFor(header, events[i]) == Some(row)
    ensures RowsUpTo(header, events, i + 1, records + [row])
  {
    var r := records + [row];
    forall k | 0 <= k < i + 1
      ensures RowFor(header, events[k]) == Some(r[k])
    {
      SnocAt(records, row, k);
    }
  }

  lemma SnocAt<T>(s: seq<T>, x: T, k: nat)
    requires k <= |s|
    ensures (s + [x])[k] == if k < |s| then s[k] else x
  {
  }

  lemma RowFails(header: Header, events: seq<Event>, i: nat)
    requires BlockIndexed(header) && i < |events| && RowFor(header, events[i]).None?
    ensures !AllRowsBuild(header, events)
  {
  }

  lemma RowsComplete(header: Header, events: seq<Event>, records: seq<UserRow>)
    requires BlockIndexed(header) && RowsUpTo(header, events, |events|, records)
    ensures AllRowsBuild(header, events) && records == Rows(header, events)
  {
    assert |records| == |Rows(header, events)|;
    forall k | 0 <= k < |events|
      ensures records[k] == Rows(header, events)[k]
    {
    }
  }

  /**
   * One row per event, in order: each row's address is the normalised
   * recipient and its transaction index, event index and hash are its
   * event's; every row of the block has the block's number as both number
   * and cursor, and the block's time rounded to seconds.
   */
  lemma RowsShape(header: Header, events: seq<Event>)
    requires BlockIndexed(header) && AllRowsBuild(header, events)
    ensures |Rows(header, events)| == |events|
    ensures forall i :: 0 <= i < |events| ==>
              var row := Rows(header, events)[i];
              && Standardise(RecipientKey(events[i].keys)) == Some(row.userAddress)
              && row.txIndex == events[i].transactionIndex
              && row.eventIndex == events[i].eventIndex
              && row.txHash == events[i].transactionHash
    ensures forall i :: 0 <= i < |events| ==>
              var row := Rows(header, events)[i];
              && row.blockNumber == row.cursor == header.blockNumber.value
              && row.timestamp == RoundSeconds(header.timestampMs)
  {
  }

  /**
   * Addresses as the chain writes them, `0x` hex with at least one digit, or
   * an absent recipient, always normalise, so such a block never throws.
   */
  lemma {:induction false} FeltKeysBuild(header: Header, events: seq<Event>)
    requires BlockIndexed(header)
    requires forall i :: 0 <= i < |events| ==>
               |events[i].keys| <= 2 || (IsHexNumeral(events[i].keys[2]) && |events[i].keys[2]| > 2)
    ensures AllRowsBuild(header, events)
  {
    forall i | 0 <= i < |events|
      ensures RowFor(header, events[i]).Some?
    {
      var key := RecipientKey(events[i].keys);
      if |events[i].keys| > 2 && events[i].keys[2] != "" {
        assert NumericValue(key) == ParseNatural(events[i].keys[2]);
      } else {
        StandardiseFalsy(key);
      }
    }
  }

  /**
   * Two events of a block land on the same `userAddress` exactly when their
   * recipients denote the same number, whatever their spelling.
   */
  lemma SameRecipientSameRow(header: Header, events: seq<Event>, i: nat, j: nat)
    requires BlockIndexed(header) && AllRowsBuild(header, events)
    requires i < |events| && j < |events|
    ensures Rows(header, events)[i].userAddress == Rows(header, events)[j].userAddress
            <==> NumericValue(RecipientKey(events[i].keys)) == NumericValue(RecipientKey(events[j].keys))
  {
    assert RowFor(header, events[i]).Some? && RowFor(header, events[j]).Some?;
    StandardiseIsJoinKey(RecipientKey(events[i].keys), RecipientKey(events[j].keys));
  }
}
