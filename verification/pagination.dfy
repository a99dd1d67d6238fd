/** Pages of a channel's messages in both directions, with cursors that outlive appends and deletions. */
module Pagination {
  import opened Common

  type ChannelId = nat
  type MessageId = nat
  type UserId = nat

  const MAX_LIMIT: nat := 100
  const MAX_SAFE_INTEGER: nat := 0x1F_FFFF_FFFF_FFFF

  /** The messages table. `next` is the AUTOINCREMENT counter: an id is never given twice. */
  datatype Table = Table(messages: map<MessageId, ChannelId>, next: nat)

  datatype Direction = Before | After
  datatype Cursor = Cursor(message: MessageId, direction: Direction)

  datatype Page = Page(
    messages: seq<MessageId>, direction: Direction, hasMore: bool,
    next: Option<Cursor>, forward: Option<Cursor>, backward: Option<Cursor>)

  ghost predicate TableOk(t: Table) {
    t.next >= 1 && forall id :: id in t.messages ==> 1 <= id < t.next
  }

  function Appended(t: Table, channel: ChannelId): Table {
    Table(t.messages[t.next := channel], t.next + 1)
  }

  function Removed(t: Table, id: MessageId): Table {
    t.(messages := t.messages - {id})
  }

  /** The ids of a channel's messages. */
  function Ids(t: Table, channel: ChannelId): set<MessageId> {
    set id | id in t.messages && t.messages[id] == channel
  }

  predicate Matches(id: MessageId, cursor: Option<Cursor>) {
    match cursor
    case None => true
    case Some(c) => if c.direction == Before then id < c.message else id > c.message
  }

  function Candidates(t: Table, channel: ChannelId, cursor: Option<Cursor>): set<MessageId> {
    set id | id in t.messages && t.messages[id] == channel && Matches(id, cursor)
  }

  function DirectionOf(cursor: Option<Cursor>): Direction {
    if cursor.Some? then cursor.value.direction else Before
  }

  /** The last `limit` of a list, or the first. */
  function Cut(ids: seq<MessageId>, direction: Direction, limit: nat): seq<MessageId> {
    if |ids| <= limit then ids
    else if direction == Before then ids[|ids| - limit..]
    else ids[..limit]
  }

  /** The cursors that go with the rows of a page. */
  function PageFrom(rows: seq<MessageId>, hasMore: bool, cursor: Option<Cursor>): Page {
    var direction := DirectionOf(cursor);
    Page(rows, direction, hasMore,
         if hasMore && rows != []
         then Some(Cursor(if direction == Before then rows[0] else rows[|rows| - 1], direction)) else None,
         if rows != [] then Some(Cursor(rows[|rows| - 1], After))
         else if direction == After then cursor else None,
         if rows != [] then Some(Cursor(rows[0], Before)) else None)
  }

  ghost function PageOf(t: Table, channel: ChannelId, cursor: Option<Cursor>, limit: nat): Page {
    var ids := Ordered(Candidates(t, channel, cursor));
    PageFrom(Cut(ids, DirectionOf(cursor), limit), |ids| > limit, cursor)
  }

  // ---------------------------------------------------------------- the table as the server keeps it

  /** The first rows of a listing in a direction. */
  predicate Picked(rows: seq<MessageId>, ids: seq<MessageId>, direction: Direction) {
    |rows| <= |ids|
    && if direction == After then rows == ids[..|rows|]
       else forall i :: 0 <= i < |rows| ==> rows[i] == ids[|ids| - 1 - i]
  }

  lemma PickedNext(rows: seq<MessageId>, ids: seq<MessageId>, direction: Direction)
    requires Picked(rows, ids, direction) && |rows| < |ids|
    ensures Picked(rows + [if direction == After then ids[|rows|] else ids[|ids| - 1 - |rows|]], ids, direction)
  {}

  class History {
    var messages: map<MessageId, ChannelId>
    var next: nat

    function Value(): Table
      reads this
    {
      Table(messages, next)
    }

    ghost predicate Valid()
      reads this
    {
      TableOk(Value())
    }

    constructor ()
      ensures Valid() && Value() == Table(map[], 1)
    {
      messages, next := map[], 1;
    }

    method Append(channel: ChannelId) returns (id: MessageId)
      requires Valid()
      modifies this
      ensures Valid() && Value() == Appended(old(Value()), channel) && id == old(next)
    {
      id := next;
      messages, next := messages[next := channel], next + 1;
    }

    method Delete(id: MessageId)
      requires Valid()
      modifies this`messages
      ensures Valid() && Value() == Removed(old(Value()), id)
    {
      messages := messages - {id};
    }

    /** SELECT ... ORDER BY id LIMIT ?: repeatedly the next row in the given order. */
    method Select(channel: ChannelId, cursor: Option<Cursor>, limit: nat) returns (rows: seq<MessageId>)
      ensures var ids := Ordered(Candidates(Value(), channel, cursor));
              rows == if DirectionOf(cursor) == After then Cut(ids, After, limit) else Reversed(Cut(ids, Before, limit))
    {
      var matching := Candidates(Value(), channel, cursor);
      var ids := SortIds(matching);
      AscendingUnique(ids, Ordered(matching));
      rows := [];
      while |rows| < limit && |rows| < |ids|
        invariant |rows| <= limit && Picked(rows, ids, DirectionOf(cursor))
      {
        PickedNext(rows, ids, DirectionOf(cursor));
        rows := rows + [if DirectionOf(cursor) == After then ids[|rows|] else ids[|ids| - 1 - |rows|]];
      }
      if DirectionOf(cursor) == Before {
        ReversedAt(Cut(ids, Before, limit), rows);
      }
    }

    /** One row more than asked for tells whether there are more. */
    method Rows(channel: ChannelId, cursor: Option<Cursor>, limit: nat) returns (rows: seq<MessageId>, hasMore: bool)
      ensures var ids := Ordered(Candidates(Value(), channel, cursor));
              rows == Cut(ids, DirectionOf(cursor), limit) && hasMore == (|ids| > limit)
    {
      ghost var ids := Ordered(Candidates(Value(), channel, cursor));
      rows := Select(channel, cursor, limit + 1);
      hasMore := |rows| > limit;
      if hasMore {
        rows := rows[..|rows| - 1];
      }
      if DirectionOf(cursor) == Before {
        PopReversed(ids, limit);
        rows := Reversed(rows);
      }
    }

    /** GET /api/channels/:channelId/messages; no page for a limit out of range. */
    method List(channel: ChannelId, cursor: Option<Cursor>, limit: nat) returns (page: Option<Page>)
      ensures page == if 1 <= limit <= MAX_LIMIT then Some(PageOf(Value(), channel, cursor, limit)) else None
    {
      if limit < 1 || limit > MAX_LIMIT {
        return None;
      }
      var rows, hasMore := Rows(channel, cursor, limit);
      return Some(PageFrom(rows, hasMore, cursor));
    }
  }

  function Reversed(s: seq<MessageId>): (r: seq<MessageId>)
    ensures |r| == |s|
    ensures forall i :: 0 <= i < |s| ==> r[i] == s[|s| - 1 - i]
  {
    if s == [] then [] else [s[|s| - 1]] + Reversed(s[..|s| - 1])
  }

  lemma ReversedAt(s: seq<MessageId>, r: seq<MessageId>)
    requires |r| == |s| && forall i :: 0 <= i < |s| ==> r[i] == s[|s| - 1 - i]
    ensures r == Reversed(s)
  {}

  /** Dropping the last row of the descending list drops the oldest. */
  lemma PopReversed(ids: seq<MessageId>, limit: nat)
    ensures var rows := Reversed(Cut(ids, Before, limit + 1));
            Reversed(if |rows| > limit then rows[..|rows| - 1] else rows) == Cut(ids, Before, limit)
  {}
}
