/** InMemoryOutbox and one round of the publisher. */
module Outbox {
  import opened Rules

  datatype Row = Row(id: int, event: Event)

  datatype Entry = Entry(row: Row, sent: bool)

  /** The rows not yet sent, oldest first. */
  function Pending(entries: seq<Entry>): seq<Row> {
    if entries == [] then []
    else Pending(entries[..|entries| - 1]) + if entries[|entries| - 1].sent then [] else [entries[|entries| - 1].row]
  }

  function Take(rows: seq<Row>, limit: int): seq<Row> {
    if limit <= 0 then [] else if |rows| <= limit then rows else rows[..limit]
  }

  /** The entries once the rows with these IDs have been sent. */
  function Sent(entries: seq<Entry>, ids: set<int>): (after: seq<Entry>)
    ensures |after| == |entries|
  {
    seq(|entries|, i requires 0 <= i < |entries| => entries[i].(sent := entries[i].sent || entries[i].row.id in ids))
  }

  function Remaining(rows: seq<Row>, ids: set<int>): seq<Row> {
    if rows == [] then []
    else Remaining(rows[..|rows| - 1], ids) + if rows[|rows| - 1].id in ids then [] else [rows[|rows| - 1]]
  }

  ghost predicate DistinctIds(entries: seq<Entry>) {
    forall i, j | 0 <= i < j < |entries| :: entries[i].row.id != entries[j].row.id
  }

  /** Sending rows takes exactly them out of the pending rows. */
  lemma {:induction false} SentLeavesRemaining(entries: seq<Entry>, ids: set<int>)
    ensures Pending(Sent(entries, ids)) == Remaining(Pending(entries), ids)
  {
    hide Pending, Remaining;
    if entries == [] {
      NothingPending(ids);
    } else {
      var init, last := entries[..|entries| - 1], entries[|entries| - 1];
      var sent := last.(sent := last.sent || last.row.id in ids);
      SentLeavesRemaining(init, ids);
      assert entries == init + [last];
      assert Sent(entries, ids) == Sent(init, ids) + [sent];
      PendingAppend(init, last);
      PendingAppend(Sent(init, ids), sent);
      RemainingAppend(Pending(init), last.row, ids);
      assert Pending(init) + [] == Pending(init) && Pending(Sent(init, ids)) + [] == Pending(Sent(init, ids));
    }
  }

  lemma NothingPending(ids: set<int>)
    ensures Pending([]) == [] && Remaining([], ids) == []
  {
  }

  lemma RemainingAppend(rows: seq<Row>, row: Row, ids: set<int>)
    ensures Remaining(rows + [row], ids) == Remaining(rows, ids) + if row.id in ids then [] else [row]
  {
    assert (rows + [row])[..|rows + [row]| - 1] == rows;
  }

  lemma PendingAppend(entries: seq<Entry>, e: Entry)
    ensures Pending(entries + [e]) == Pending(entries) + if e.sent then [] else [e.row]
  {
    assert (entries + [e])[..|entries + [e]| - 1] == entries;
  }

  lemma {:induction false} PendingIsPrefix(entries: seq<Entry>, i: nat)
    requires i <= |entries|
    ensures Pending(entries[..i]) <= Pending(entries)
    decreases |entries| - i
  {
    if i < |entries| {
      PendingIsPrefix(entries, i + 1);
      assert entries[..i + 1][..i] == entries[..i];
    } else {
      assert entries[..i] == entries;
    }
  }

  class InMemoryOutbox {
    var entries: seq<Entry>
    var counter: int

    ghost predicate Valid()
      reads this
    {
      DistinctIds(entries) && forall i | 0 <= i < |entries| :: entries[i].row.id <= counter
    }

    constructor ()
      ensures Valid() && entries == []
    {
      entries, counter := [], 0;
    }

    method Insert(event: Event) returns (id: int)
      requires Valid()
      modifies this
      ensures Valid() && entries == old(entries) + [Entry(Row(id, event), false)]
      ensures Pending(entries) == Pending(old(entries)) + [Row(id, event)]
      ensures forall i | 0 <= i < |old(entries)| :: old(entries)[i].row.id != id
    {
      counter := counter + 1;
      id := counter;
      PendingAppend(entries, Entry(Row(id, event), false));
      entries := entries + [Entry(Row(id, event), false)];
    }

    /** The oldest pending rows, at most `limit` of them. */
    method FetchPending(limit: int) returns (rows: seq<Row>)
      ensures rows == Take(Pending(entries), limit)
    {
      rows := [];
      if limit <= 0 {
        return;
      }
      for i := 0 to |entries|
        invariant rows == Pending(entries[..i]) && |rows| < limit
      {
        assert entries[..i + 1][..i] == entries[..i];
        if !entries[i].sent {
          rows := rows + [entries[i].row];
          if |rows| >= limit {
            PendingIsPrefix(entries, i + 1);
            return;
          }
        }
      }
      assert entries[..|entries|] == entries;
    }

    /** Marks the row with this ID; reports whether there is one. */
    method MarkSent(id: int) returns (found: bool)
      requires Valid()
      modifies this`entries
      ensures Valid() && entries == Sent(old(entries), {id})
      ensures found <==> exists i :: 0 <= i < |entries| && entries[i].row.id == id
    {
      for i := 0 to |entries|
        invariant forall j | 0 <= j < i :: entries[j].row.id != id
      {
        if entries[i].row.id == id {
          entries := entries[i := entries[i].(sent := true)];
          assert entries[i].row.id == id;
          assert entries == Sent(old(entries), {id});
          return true;
        }
      }
      assert entries == Sent(entries, {id});
      return false;
    }

    /**
     * One publishing round: every fetched row is published and marked sent, unless publishing it fails, in which
     * case it stays pending. Rows are marked only after they were published, so none is lost.
     */
    method PublishRound(limit: int, fails: int -> bool) returns (published: seq<Event>)
      requires Valid()
      modifies this`entries
      ensures Valid()
      ensures var rows := Take(Pending(old(entries)), limit);
              && published == Delivered(rows, fails)
              && Pending(entries) == Remaining(Pending(old(entries)), DeliveredIds(rows, fails))
    {
      published := [];
      var rows := FetchPending(limit);
      SentNothing(entries);
      for i := 0 to |rows|
        invariant Valid() && entries == Sent(old(entries), DeliveredIds(rows[..i], fails))
        invariant published == Delivered(rows[..i], fails)
      {
        assert rows[..i + 1][..i] == rows[..i];
        var row := rows[i];
        if !fails(row.id) {
          published := published + [row.event];
          var _ := MarkSent(row.id);
          SentTwice(old(entries), DeliveredIds(rows[..i], fails), row.id);
        }
      }
      assert rows[..|rows|] == rows;
      SentLeavesRemaining(old(entries), DeliveredIds(rows, fails));
    }
  }

  function Delivered(rows: seq<Row>, fails: int -> bool): seq<Event> {
    if rows == [] then []
    else Delivered(rows[..|rows| - 1], fails) + if fails(rows[|rows| - 1].id) then [] else [rows[|rows| - 1].event]
  }

  function DeliveredIds(rows: seq<Row>, fails: int -> bool): set<int> {
    if rows == [] then {}
    else DeliveredIds(rows[..|rows| - 1], fails) + if fails(rows[|rows| - 1].id) then {} else {rows[|rows| - 1].id}
  }

  lemma SentNothing(entries: seq<Entry>)
    ensures Sent(entries, {}) == entries
  {
  }

  lemma SentTwice(entries: seq<Entry>, ids: set<int>, id: int)
    ensures Sent(Sent(entries, ids), {id}) == Sent(entries, ids + {id})
  {
  }

  // What a round publishes

  /** The marked rows are exactly the taken rows whose publication did not fail. */
  lemma {:induction false} MarkedArePublished(rows: seq<Row>, fails: int -> bool)
    ensures forall id :: id in DeliveredIds(rows, fails) <==> !fails(id) && exists row :: row in rows && row.id == id
    ensures forall row | row in rows && !fails(row.id) :: row.event in Delivered(rows, fails)
    ensures forall e | e in Delivered(rows, fails) :: exists row :: row in rows && !fails(row.id) && row.event == e
  {
    if rows != [] {
      var init, last := rows[..|rows| - 1], rows[|rows| - 1];
      MarkedArePublished(init, fails);
      assert rows == init + [last];
      assert forall row :: row in rows <==> row in init || row == last;
      forall id
        ensures id in DeliveredIds(rows, fails) <==> !fails(id) && exists row :: row in rows && row.id == id
      {
        if !fails(id) && exists row :: row in init && row.id == id {
          var row :| row in init && row.id == id;
          assert row in rows;
        }
      }
    }
  }

  ghost predicate DistinctRows(rows: seq<Row>) {
    forall i, j | 0 <= i < j < |rows| :: rows[i].id != rows[j].id
  }

  /** What is left of rows with distinct IDs is exactly what was not marked. */
  lemma {:induction false} RemainingMembers(rows: seq<Row>, ids: set<int>)
    ensures forall row :: row in Remaining(rows, ids) <==> row in rows && row.id !in ids
  {
    if rows != [] {
      var init, last := rows[..|rows| - 1], rows[|rows| - 1];
      RemainingMembers(init, ids);
      assert rows == init + [last];
    }
  }

  /**
   * A row with fewer than `limit` pending rows before it is published by a round, and is pending no more, if its
   * publication does not fail; otherwise it stays pending. No other row leaves.
   */
  lemma RoundPublishes(pending: seq<Row>, limit: int, fails: int -> bool, i: nat)
    requires DistinctRows(pending) && i < |pending|
    ensures var rows := Take(pending, limit);
            var after := Remaining(pending, DeliveredIds(rows, fails));
            && (i < limit && !fails(pending[i].id) ==>
                  pending[i].event in Delivered(rows, fails) && pending[i] !in after)
            && (i >= limit || fails(pending[i].id) ==> pending[i] in after)
  {
    hide Remaining, Delivered, DeliveredIds;
    var rows, row := Take(pending, limit), pending[i];
    MarkedArePublished(rows, fails);
    RemainingMembers(pending, DeliveredIds(rows, fails));
    if i < limit {
      assert rows[i] == row;
    } else {
      forall other | other in rows
        ensures other.id != row.id
      {
        var j :| 0 <= j < |rows| && rows[j] == other;
        assert rows[j] == pending[j];
      }
    }
  }

  /** The pending rows of a valid outbox have distinct IDs. */
  lemma {:induction false} PendingDistinct(entries: seq<Entry>)
    requires DistinctIds(entries)
    ensures DistinctRows(Pending(entries))
    ensures forall row | row in Pending(entries) :: exists i :: 0 <= i < |entries| && entries[i].row == row
  {
    if entries != [] {
      var init, last := entries[..|entries| - 1], entries[|entries| - 1];
      PendingDistinct(init);
      assert forall i | 0 <= i < |init| :: init[i] == entries[i];
      forall row | row in Pending(init)
        ensures row.id != last.row.id && exists i :: 0 <= i < |entries| && entries[i].row == row
      {
        var i :| 0 <= i < |init| && init[i].row == row;
        assert entries[i].row == row;
      }
      assert entries[|entries| - 1].row == last.row;
    }
  }
}
