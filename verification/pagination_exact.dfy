/** The pages and cursors of a channel's history, told from the rows of the messages table. */
module PaginationExact {
  import opened Common
  import opened CursorTokens
  import opened Pagination

  /** The messages of the channel below a message, above one, or all of them. */
  function Older(t: Table, channel: ChannelId, than: MessageId): set<MessageId> {
    set id | id in t.messages && t.messages[id] == channel && id < than
  }

  function Newer(t: Table, channel: ChannelId, than: MessageId): set<MessageId> {
    set id | id in t.messages && t.messages[id] == channel && than < id
  }

  function All(t: Table, channel: ChannelId): set<MessageId> {
    set id | id in t.messages && t.messages[id] == channel
  }

  /** The newest `limit` of these in ascending order, with the cursors around them. */
  ghost predicate EndsList(page: Page, ids: seq<MessageId>, limit: nat)
    requires limit >= 1
  {
    && page.direction == Before
    && page.messages == (if |ids| <= limit then ids else ids[|ids| - limit..])
    && (page.hasMore <==> limit < |ids|)
    && page.next == (if limit < |ids| then Some(Cursor(ids[|ids| - limit], Before)) else None)
    && page.backward == (if ids == [] then None else Some(Cursor(page.messages[0], Before)))
    && page.forward == (if ids == [] then None else Some(Cursor(ids[|ids| - 1], After)))
  }

  /** The oldest `limit` of these; a page without messages keeps the place it was asked for. */
  ghost predicate BeginsList(page: Page, ids: seq<MessageId>, at: MessageId, limit: nat)
    requires limit >= 1
  {
    && page.direction == After
    && page.messages == (if |ids| <= limit then ids else ids[..limit])
    && (page.hasMore <==> limit < |ids|)
    && page.next == (if limit < |ids| then Some(Cursor(ids[limit - 1], After)) else None)
    && page.backward == (if ids == [] then None else Some(Cursor(ids[0], Before)))
    && page.forward == Some(Cursor(if ids == [] then at else page.messages[|page.messages| - 1], After))
  }

  lemma EndOf(ids: seq<MessageId>, cursor: Option<Cursor>, limit: nat)
    requires limit >= 1 && DirectionOf(cursor) == Before
    ensures EndsList(PageFrom(Cut(ids, Before, limit), |ids| > limit, cursor), ids, limit)
  {}

  lemma BeginningOf(ids: seq<MessageId>, at: MessageId, limit: nat)
    requires limit >= 1
    ensures BeginsList(PageFrom(Cut(ids, After, limit), |ids| > limit, Some(Cursor(at, After))), ids, at, limit)
  {}

  lemma Sides(t: Table, channel: ChannelId, at: MessageId)
    ensures Candidates(t, channel, None) == All(t, channel)
    ensures Candidates(t, channel, Some(Cursor(at, Before))) == Older(t, channel, at)
    ensures Candidates(t, channel, Some(Cursor(at, After))) == Newer(t, channel, at)
  {}

  /** Without a cursor a page ends the history, before a message what is older; after one it begins what is newer. */
  lemma PageExactly(t: Table, channel: ChannelId, at: MessageId, limit: nat)
    requires limit >= 1
    ensures EndsList(PageOf(t, channel, None, limit), Ordered(All(t, channel)), limit)
    ensures EndsList(PageOf(t, channel, Some(Cursor(at, Before)), limit), Ordered(Older(t, channel, at)), limit)
    ensures BeginsList(PageOf(t, channel, Some(Cursor(at, After)), limit), Ordered(Newer(t, channel, at)), at, limit)
  {
    Sides(t, channel, at);
    EndOf(Ordered(All(t, channel)), None, limit);
    EndOf(Ordered(Older(t, channel, at)), Some(Cursor(at, Before)), limit);
    BeginningOf(Ordered(Newer(t, channel, at)), at, limit);
  }

  /** An append adds the next id to the channel, and a removal removes one id; nothing else changes. */
  lemma ChangedExactly(t: Table, channel: ChannelId, id: MessageId)
    ensures Appended(t, channel) == Table(t.messages[t.next := channel], t.next + 1)
    ensures Removed(t, id) == Table(t.messages - {id}, t.next)
  {}

  // ---------------------------------------------------------------- the text of a cursor

  /** A text of 32 to 1024 characters with one dot, letters, digits, underscores and hyphens before and behind it. */
  ghost predicate WellFormed(text: string, payload: string, signature: string) {
    && text == payload + "." + signature && 32 <= |text| <= 1024
    && payload != [] && signature != []
    && (forall i :: 0 <= i < |payload| ==> UrlByte(payload[i])) && forall i :: 0 <= i < |signature| ==> UrlByte(signature[i])
  }

  predicate UrlByte(c: char) {
    ('A' <= c && c <= 'Z') || ('a' <= c && c <= 'z') || ('0' <= c && c <= '9') || c == '-' || c == '_'
  }

  /** The fields of a cursor for this server, channel and user. */
  predicate Names(f: Fields, server: string, channel: ChannelId, user: UserId, c: Cursor) {
    && f.version == 1 && f.server == server && f.channel == Decimal(channel) && f.user == Decimal(user)
    && f.message == Decimal(c.message) && 1 <= c.message && c.message <= 9007199254740991
    && f.direction == if c.direction == Before then "before" else "after"
  }

  /**
   A text decodes to a cursor exactly when it is well-formed, its second part is the HMAC of the first, and the first
   decodes to the fields of this cursor.
   */
  lemma DecodedExactly(k: Codec, server: string, channel: ChannelId, user: UserId, payload: string, signature: string, c: Cursor)
    requires WellFormed(payload + "." + signature, payload, signature)
    ensures DecodeCursor(k, server, channel, user, payload + "." + signature) == Some(c)
            <==> signature == k.mac(payload) && k.decode(payload).Some?
                 && Names(k.decode(payload).value, server, channel, user, c)
  {
    assert UrlText(payload) && UrlText(signature);
    Parts(payload, signature);
    if k.decode(payload).Some? {
      MessageMeans(k.decode(payload).value.message, c.message);
      assert "before" != "after" by {
        assert "before"[0] != "after"[0];
      }
    }
  }

  lemma MessageMeans(text: string, n: nat)
    ensures MessageOf(text) == Some(n) <==> text == Decimal(n) && 1 <= n && n <= 9007199254740991
  {
    ValueOfDecimal(n);
  }

  /** Any other text decodes to nothing. */
  lemma OnlyWellFormed(k: Codec, server: string, channel: ChannelId, user: UserId, text: string)
    requires DecodeCursor(k, server, channel, user, text).Some?
    ensures exists payload, signature :: WellFormed(text, payload, signature)
  {
    DotIsDot(text);
    var payload, signature := text[..DotAt(text)], text[DotAt(text) + 1..];
    assert text == payload + "." + signature;
    assert WellFormed(text, payload, signature);
  }

  /** A number is written without leading zeros, digit by digit. */
  lemma DecimalMeans(n: nat)
    ensures n < 10 ==> Decimal(n) == ["0123456789"[n]]
    ensures n >= 10 ==> Decimal(n) == Decimal(n / 10) + ["0123456789"[n % 10]]
  {
    assert forall d :: 0 <= d < 10 ==> "0123456789"[d] == Digit(d);
  }

  /** What is signed is the version, the server, the channel, the message, the user and the direction, in words. */
  lemma EncodedExactly(k: Codec, server: string, channel: ChannelId, user: UserId, c: Cursor)
    ensures var payload := k.encode(Fields(
              1, server, Decimal(channel), Decimal(c.message), Decimal(user),
              if c.direction == After then "after" else "before"));
            EncodeCursor(k, server, channel, user, c) == payload + "." + k.mac(payload)
  {}
}
