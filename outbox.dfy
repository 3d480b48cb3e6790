/**
 * The outbox table and its four operations. Events are appended with fresh,
 * increasing ids; the sync worker fetches the oldest unprocessed ones, then
 * marks them processed or records an error on them.
 */
module OutboxStore {
  import opened Wrappers
  import opened Models

  /** The unprocessed rows, in table (id) order. */
  function Pending(rows: seq<OutboxRow>): (r: seq<OutboxRow>)
    ensures |r| <= |rows|
    ensures forall k :: 0 <= k < |r| ==> r[k].Pending()
  {
    if rows == [] then []
    else if rows[0].Pending() then [rows[0]] + Pending(rows[1..])
    else Pending(rows[1..])
  }

  /** The ids of a list of rows, in order. */
  function OutboxIds(rs: seq<OutboxRow>): (r: seq<int>)
    ensures |r| == |rs| && forall k :: 0 <= k < |rs| ==> r[k] == rs[k].id
  {
    if rs == [] then [] else [rs[0].id] + OutboxIds(rs[1..])
  }

  /** `SELECT ... WHERE processed_at IS NULL ORDER BY id LIMIT limit` */
  function Fetch(rows: seq<OutboxRow>, limit: nat): (r: seq<OutboxRow>)
    ensures |r| <= limit && |r| <= |rows|
    ensures forall k :: 0 <= k < |r| ==> r[k].Pending()
  {
    var p := Pending(rows);
    if |p| <= limit then p else p[..limit]
  }

  function MarkProcessedRow(r: OutboxRow, ids: seq<int>, now: string): OutboxRow {
    if r.id in ids then r.(processedAt := Some(now), error := None) else r
  }

  /** `UPDATE outbox SET processed_at = now, error = NULL WHERE id IN ids` */
  function MarkProcessedRows(rows: seq<OutboxRow>, ids: seq<int>, now: string): (r: seq<OutboxRow>)
    ensures |r| == |rows|
    ensures forall k :: 0 <= k < |rows| ==> r[k] == MarkProcessedRow(rows[k], ids, now)
  {
    if rows == [] then [] else [MarkProcessedRow(rows[0], ids, now)] + MarkProcessedRows(rows[1..], ids, now)
  }

  function MarkErrorRow(r: OutboxRow, id: int, error: string): OutboxRow {
    if r.id == id then r.(error := Some(error)) else r
  }

  /** `UPDATE outbox SET error = error WHERE id = id` */
  function MarkErrorRows(rows: seq<OutboxRow>, id: int, error: string): (r: seq<OutboxRow>)
    ensures |r| == |rows|
    ensures forall k :: 0 <= k < |rows| ==> r[k] == MarkErrorRow(rows[k], id, error)
  {
    if rows == [] then [] else [MarkErrorRow(rows[0], id, error)] + MarkErrorRows(rows[1..], id, error)
  }

  class Outbox {
    var rows: seq<OutboxRow>
    var nextId: int

    ghost predicate Valid()
      reads this
    {
      nextId >= 1 && OutboxKeys(rows, nextId)
    }

    constructor()
      ensures Valid() && rows == [] && nextId == 1
    {
      rows := [];
      nextId := 1;
    }

    /** `outbox_add`: one new unprocessed row without error, carrying the event. */
    method Add(e: Event)
      requires Valid()
      modifies this
      ensures Valid()
      ensures rows == old(rows) + [OutboxRow(old(nextId), e, None, None)]
      ensures nextId == old(nextId) + 1
    {
      rows := rows + [OutboxRow(nextId, e, None, None)];
      nextId := nextId + 1;
    }

    /** `outbox_fetch_batch`: the oldest `limit` unprocessed rows. */
    method FetchBatch(limit: nat) returns (batch: seq<OutboxRow>)
      ensures batch == Fetch(rows, limit)
    {
      batch := Fetch(rows, limit);
    }

    /** `outbox_mark_processed`; an empty id list returns before touching the table. */
    method MarkProcessed(ids: seq<int>, now: string)
      requires Valid()
      modifies this
      ensures Valid()
      ensures rows == MarkProcessedRows(old(rows), ids, now) && nextId == old(nextId)
    {
      if |ids| == 0 {
        MarkProcessedNone(rows, now);
        return;
      }
      rows := MarkProcessedRows(rows, ids, now);
    }

    /** `outbox_mark_error` */
    method MarkError(id: int, error: string)
      requires Valid()
      modifies this
      ensures Valid()
      ensures rows == MarkErrorRows(old(rows), id, error) && nextId == old(nextId)
    {
      rows := MarkErrorRows(rows, id, error);
    }
  }

  // ----- properties -----

  /** Membership in the pending list: exactly the rows with no processed_at. */
  lemma {:induction false} PendingMembers(rows: seq<OutboxRow>, r: OutboxRow)
    ensures r in Pending(rows) <==> r in rows && r.Pending()
  {
    if rows != [] {
      PendingMembers(rows[1..], r);
      assert rows == [rows[0]] + rows[1..];
    }
  }

  lemma {:induction false} PendingAscending(rows: seq<OutboxRow>, next: int)
    requires OutboxKeys(rows, next)
    ensures OutboxKeys(Pending(rows), next)
  {
    if rows != [] {
      PendingAscending(rows[1..], next);
      if rows[0].Pending() {
        var p := Pending(rows[1..]);
        forall k | 0 <= k < |p|
          ensures rows[0].id < p[k].id
        {
          PendingMembers(rows[1..], p[k]);
        }
      }
    }
  }

  /**
   * `outbox_fetch_batch` returns only unprocessed rows of the table, in
   * ascending id order, at most `limit` of them, and the oldest ones first:
   * it stops short only at the limit.
   */
  lemma FetchProperties(rows: seq<OutboxRow>, limit: nat, next: int)
    requires OutboxKeys(rows, next)
    ensures var b := Fetch(rows, limit);
      && |b| <= limit
      && (forall k :: 0 <= k < |b| ==> b[k] in rows && b[k].Pending())
      && OutboxKeys(b, next)
      && b <= Pending(rows)
      && (|b| < limit ==> b == Pending(rows))
  {
    var b := Fetch(rows, limit);
    var p := Pending(rows);
    PendingAscending(rows, next);
    forall k | 0 <= k < |b|
      ensures b[k] in rows && b[k].Pending()
    {
      assert b[k] == p[k];
      PendingMembers(rows, b[k]);
    }
  }

  /** `outbox_mark_processed([])` changes nothing. */
  lemma {:induction false} MarkProcessedNone(rows: seq<OutboxRow>, now: string)
    ensures MarkProcessedRows(rows, [], now) == rows
  {
    assert forall k :: 0 <= k < |rows| ==> MarkProcessedRows(rows, [], now)[k] == rows[k];
  }

  /**
   * `outbox_mark_processed(ids)` stamps and clears the error of exactly the
   * rows whose id is listed; every other row, and every event, is unchanged.
   */
  lemma MarkProcessedEffect(rows: seq<OutboxRow>, ids: seq<int>, now: string, k: int)
    requires 0 <= k < |rows|
    ensures var r := MarkProcessedRows(rows, ids, now)[k];
      && r.id == rows[k].id && r.event == rows[k].event
      && (rows[k].id in ids ==> r.processedAt == Some(now) && r.error == None)
      && (rows[k].id !in ids ==> r == rows[k])
  {
  }

  /** `outbox_mark_error` sets only the error; the row stays unprocessed and is fetched again. */
  lemma MarkErrorKeepsPending(rows: seq<OutboxRow>, id: int, error: string)
    ensures OutboxIds(Pending(MarkErrorRows(rows, id, error))) == OutboxIds(Pending(rows))
    ensures forall k :: 0 <= k < |rows| ==>
      var r := MarkErrorRows(rows, id, error)[k];
      r.processedAt == rows[k].processedAt && r.event == rows[k].event && r.id == rows[k].id
      && (rows[k].id == id ==> r.error == Some(error))
  {
    PendingIdsMarkError(rows, id, error);
  }

  lemma {:induction false} PendingIdsMarkError(rows: seq<OutboxRow>, id: int, error: string)
    ensures OutboxIds(Pending(MarkErrorRows(rows, id, error))) == OutboxIds(Pending(rows))
  {
    if rows != [] {
      var m := MarkErrorRows(rows, id, error);
      assert m[1..] == MarkErrorRows(rows[1..], id, error);
      PendingIdsMarkError(rows[1..], id, error);
      if rows[0].Pending() {
        assert OutboxIds([m[0]] + Pending(m[1..])) == [m[0].id] + OutboxIds(Pending(m[1..]));
        assert OutboxIds([rows[0]] + Pending(rows[1..])) == [rows[0].id] + OutboxIds(Pending(rows[1..]));
      }
    }
  }

  /** After marking, the pending rows are the former pending rows whose id was not listed. */
  lemma {:induction false} PendingAfterMarkProcessed(rows: seq<OutboxRow>, ids: seq<int>, now: string, r: OutboxRow)
    ensures r in Pending(MarkProcessedRows(rows, ids, now)) <==> r in Pending(rows) && r.id !in ids
  {
    var m := MarkProcessedRows(rows, ids, now);
    PendingMembers(m, r);
    PendingMembers(rows, r);
    if r in m && r.Pending() {
      var k :| 0 <= k < |m| && m[k] == r;
      assert rows[k] == r;
    }
    if r in rows && r.Pending() && r.id !in ids {
      var k :| 0 <= k < |rows| && rows[k] == r;
      assert m[k] == r;
    }
  }
}
