/**
 * The chat message table and the two read paths over it: the history of
 * one participant and the total count. The table is append-only here: the
 * chat sessions insert rows and nothing in the chat subsystem deletes or
 * updates one.
 */
module Messages {
  import opened Wrappers

  /** One row of the `messages` table. `isOwner` is true for rows a user
      wrote and false for rows the admin wrote; `createdAt` is the
      insertion time. */
  datatype Message = Message(
    id: nat,
    content: string,
    senderId: int,
    receiverId: Option<int>,
    isOwner: bool,
    createdAt: nat)

  /** What a session asks the store to insert; the store adds the id, and
      the session's clock the timestamp. */
  datatype Draft = Draft(content: string, senderId: int, receiverId: int, isOwner: bool)

  /** One element of the list the history endpoint returns. */
  datatype HistoryEntry = HistoryEntry(
    id: nat,
    content: string,
    senderId: int,
    receiverId: Option<int>,
    isFromAdmin: bool,
    createdAt: nat)

  /** The history endpoint's only modelled failure: HTTP 404, unknown user. */
  datatype HttpError = NotFound

  // ---------------------------------------------------------------------
  // Row identifiers
  // ---------------------------------------------------------------------

  /** Every row's id is smaller than the ids of the rows inserted after it. */
  predicate IdsIncreasing(rows: seq<Message>) {
    forall i, j :: 0 <= i < j < |rows| ==> rows[i].id < rows[j].id
  }

  /** The largest id in the table, 0 when it is empty. */
  function MaxId(rows: seq<Message>): (r: nat)
    ensures forall m :: m in rows ==> m.id <= r
    ensures rows == [] ==> r == 0
    ensures rows != [] ==> exists m :: m in rows && m.id == r
  {
    if rows == [] then 0
    else
      var rest := MaxId(rows[1..]);
      assert forall m :: m in rows ==> m == rows[0] || m in rows[1..];
      if rows[0].id > rest then rows[0].id else rest
  }

  /** The id an insert receives: one more than the largest id in use, as
      SQLite (the default engine) allocates the rowid of a table keyed by an
      integer primary key. */
  function NextId(rows: seq<Message>): (id: nat)
    ensures id >= 1
    ensures forall m :: m in rows ==> m.id < id
  {
    MaxId(rows) + 1
  }

  /** The row a committed draft becomes. */
  function Saved(draft: Draft, id: nat, now: nat): (m: Message)
    ensures m.id == id && m.createdAt == now
    ensures Involves(m, draft.senderId) && Involves(m, draft.receiverId)
  {
    Message(id, draft.content, draft.senderId, Some(draft.receiverId), draft.isOwner, now)
  }

  /** Inserting a row with the next id keeps ids increasing and leaves
      every earlier row where it was. */
  lemma AppendKeepsIdsIncreasing(rows: seq<Message>, draft: Draft, now: nat)
    requires IdsIncreasing(rows)
    ensures var rows' := rows + [Saved(draft, NextId(rows), now)];
      IdsIncreasing(rows') && rows'[..|rows|] == rows
  {
  }

  // ---------------------------------------------------------------------
  // The history query
  // ---------------------------------------------------------------------

  /** The query's filter: the participant sent the row or is its receiver
      (a null receiver matches nobody). */
  predicate Involves(m: Message, userId: int) {
    m.senderId == userId || m.receiverId == Some(userId)
  }

  /** The rows the filter keeps, in table order, each as often as stored. */
  function Involving(rows: seq<Message>, userId: int): (r: seq<Message>)
    ensures forall m :: m in r <==> m in rows && Involves(m, userId)
  {
    if rows == [] then []
    else
      assert rows == [rows[0]] + rows[1..];
      (if Involves(rows[0], userId) then [rows[0]] else []) + Involving(rows[1..], userId)
  }

  /** The filter keeps every matching row as many times as it is stored
      and drops every other row. */
  lemma {:induction false} InvolvingMultiplicity(rows: seq<Message>, userId: int, m: Message)
    ensures multiset(Involving(rows, userId))[m] == if Involves(m, userId) then multiset(rows)[m] else 0
  {
    if rows != [] {
      InvolvingMultiplicity(rows[1..], userId, m);
      assert rows == [rows[0]] + rows[1..];
    }
  }

  /** Non-decreasing creation time: the query's ORDER BY created_at ASC. */
  predicate ByTime(s: seq<Message>) {
    forall i, j :: 0 <= i < j < |s| ==> s[i].createdAt <= s[j].createdAt
  }

  /** Inserts `m` before the first row that is not older than it. */
  function InsertByTime(m: Message, s: seq<Message>): (r: seq<Message>)
    ensures |r| == |s| + 1
    ensures multiset(r) == multiset(s) + multiset{m}
  {
    if s == [] || m.createdAt <= s[0].createdAt then [m] + s
    else
      assert s == [s[0]] + s[1..];
      [s[0]] + InsertByTime(m, s[1..])
  }

  /** The ordering the database applies; among rows with equal timestamps
      this one keeps table order. */
  function SortByTime(s: seq<Message>): (r: seq<Message>)
    ensures |r| == |s|
    ensures multiset(r) == multiset(s)
  {
    if s == [] then []
    else
      assert s == [s[0]] + s[1..];
      InsertByTime(s[0], SortByTime(s[1..]))
  }

  /** Inserting a row no older than `t` into rows no older than `t` keeps them all no older than `t`. */
  lemma InsertByTimeBounded(m: Message, s: seq<Message>, t: nat)
    requires t <= m.createdAt
    requires forall k :: 0 <= k < |s| ==> t <= s[k].createdAt
    ensures forall k :: 0 <= k < |s| + 1 ==> t <= InsertByTime(m, s)[k].createdAt
  {
    var r := InsertByTime(m, s);
    forall k | 0 <= k < |r| ensures t <= r[k].createdAt {
      assert r[k] in multiset(r);
      if r[k] != m {
        assert r[k] in multiset(s);
        assert r[k] in s;
      }
    }
  }

  lemma {:induction false} InsertByTimeOrdered(m: Message, s: seq<Message>)
    requires ByTime(s)
    ensures ByTime(InsertByTime(m, s))
  {
    if s == [] || m.createdAt <= s[0].createdAt {
      var r := [m] + s;
      forall i, j | 0 <= i < j < |r| ensures r[i].createdAt <= r[j].createdAt {
        if i > 0 {
          assert r[i] == s[i - 1] && r[j] == s[j - 1];
        }
      }
    } else {
      var tail := InsertByTime(m, s[1..]);
      InsertByTimeOrdered(m, s[1..]);
      InsertByTimeBounded(m, s[1..], s[0].createdAt);
      var r := [s[0]] + tail;
      forall i, j | 0 <= i < j < |r| ensures r[i].createdAt <= r[j].createdAt {
        if i > 0 {
          assert r[i] == tail[i - 1] && r[j] == tail[j - 1];
        } else {
          assert r[j] == tail[j - 1];
        }
      }
    }
  }

  lemma {:induction false} SortByTimeOrdered(s: seq<Message>)
    ensures ByTime(SortByTime(s))
  {
    if s != [] {
      SortByTimeOrdered(s[1..]);
      InsertByTimeOrdered(s[0], SortByTime(s[1..]));
    }
  }

  /** One returned entry: the row's fields, with the flag the client reads
      as "written by the admin" derived as the negation of `isOwner`. */
  function EntryOf(m: Message): (e: HistoryEntry)
    ensures RowOf(e) == m
  {
    HistoryEntry(m.id, m.content, m.senderId, m.receiverId, !m.isOwner, m.createdAt)
  }

  /** The row an entry was built from. */
  function RowOf(e: HistoryEntry): Message {
    Message(e.id, e.content, e.senderId, e.receiverId, !e.isFromAdmin, e.createdAt)
  }

  function Entries(ms: seq<Message>): seq<HistoryEntry> {
    seq(|ms|, i requires 0 <= i < |ms| => EntryOf(ms[i]))
  }

  /** The list the history endpoint returns for an existing participant. */
  function HistoryOf(rows: seq<Message>, userId: int): (h: seq<HistoryEntry>)
    ensures |h| == |Involving(rows, userId)|
  {
    Entries(SortByTime(Involving(rows, userId)))
  }

  /** The history is in non-decreasing creation-time order. */
  lemma HistoryOrdered(rows: seq<Message>, userId: int)
    ensures var h := HistoryOf(rows, userId);
      forall i, j :: 0 <= i < j < |h| ==> h[i].createdAt <= h[j].createdAt
  {
    var sorted := SortByTime(Involving(rows, userId));
    SortByTimeOrdered(Involving(rows, userId));
    var h := HistoryOf(rows, userId);
    forall i, j | 0 <= i < j < |h| ensures h[i].createdAt <= h[j].createdAt {
      assert h[i] == EntryOf(sorted[i]) && h[j] == EntryOf(sorted[j]);
    }
  }

  /** Building entries loses no row and invents none. */
  lemma EntriesMembership(ms: seq<Message>)
    ensures forall m :: m in ms ==> EntryOf(m) in Entries(ms)
    ensures forall e :: e in Entries(ms) ==> RowOf(e) in ms && EntryOf(RowOf(e)) == e
  {
    var es := Entries(ms);
    forall m | m in ms ensures EntryOf(m) in es {
      var k :| 0 <= k < |ms| && ms[k] == m;
      assert es[k] == EntryOf(m);
    }
    forall e | e in es ensures RowOf(e) in ms && EntryOf(RowOf(e)) == e {
      var k :| 0 <= k < |es| && es[k] == e;
      assert RowOf(e) == ms[k];
    }
  }

  /** The history holds exactly the rows the participant sent or received:
      one entry per such row, every such row, and no other; each entry's
      admin flag is the negation of its row's `isOwner`. */
  lemma HistoryContents(rows: seq<Message>, userId: int)
    ensures |HistoryOf(rows, userId)| == |Involving(rows, userId)|
    ensures forall m :: m in rows && Involves(m, userId) ==> EntryOf(m) in HistoryOf(rows, userId)
    ensures forall e :: e in HistoryOf(rows, userId) ==>
      RowOf(e) in rows && Involves(RowOf(e), userId) && EntryOf(RowOf(e)) == e
  {
    var matching := Involving(rows, userId);
    var sorted := SortByTime(matching);
    assert forall m :: m in sorted <==> m in matching by {
      forall m ensures m in sorted <==> m in matching {
        assert m in sorted <==> m in multiset(sorted);
        assert m in matching <==> m in multiset(matching);
      }
    }
    EntriesMembership(sorted);
  }

  // ---------------------------------------------------------------------
  // The store
  // ---------------------------------------------------------------------

  /** Builds the response list one row at a time, in the order given. */
  method BuildEntries(ms: seq<Message>) returns (result: seq<HistoryEntry>)
    ensures result == Entries(ms)
  {
    result := [];
    var i := 0;
    while i < |ms|
      invariant 0 <= i <= |ms|
      invariant |result| == i
      invariant forall k :: 0 <= k < i ==> result[k] == EntryOf(ms[k])
    {
      result := result + [EntryOf(ms[i])];
      i := i + 1;
    }
  }

  /** The `messages` table as the chat subsystem sees it. */
  class MessageStore {
    var rows: seq<Message>

    constructor ()
      ensures rows == []
    {
      rows := [];
    }

    /** `db.add` followed by `db.commit`. `commitOk` says whether the commit
        succeeded; on failure the session rolls back and nothing is stored. */
    method Commit(draft: Draft, now: nat, commitOk: bool) returns (saved: Option<Message>)
      modifies this
      ensures commitOk ==> saved == Some(Saved(draft, NextId(old(rows)), now))
      ensures commitOk ==> rows == old(rows) + [saved.value]
      ensures !commitOk ==> saved == None && rows == old(rows)
    {
      if commitOk {
        var m := Saved(draft, NextId(rows), now);
        rows := rows + [m];
        saved := Some(m);
      } else {
        saved := None;
      }
    }

    /** GET history: 404 when the participant is not a known user,
        otherwise the matching rows ordered by creation time. */
    method ChatHistory(userId: int, users: set<int>) returns (r: Result<seq<HistoryEntry>, HttpError>)
      ensures r.Err? <==> userId !in users
      ensures r.Err? ==> r.error == NotFound
      ensures r.Ok? ==> r.value == HistoryOf(rows, userId)
    {
      if userId !in users {
        return Err(NotFound);
      }
      var messages := SortByTime(Involving(rows, userId));
      var result := BuildEntries(messages);
      return Ok(result);
    }

    /** GET stats/total: the number of stored messages. */
    method TotalMessages() returns (total: nat)
      ensures total == |rows|
    {
      total := |rows|;
    }
  }
}
