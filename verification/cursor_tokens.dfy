/**
 The text of history cursors: a payload and its signature, both base64url, with a dot between them. JSON,
 base64url and HMAC-SHA256 are parameters; nothing is assumed about the HMAC but its alphabet and length.
 */
module CursorTokens {
  import opened Common
  import opened Pagination

  /** The fields of a payload as the parser yields them, each a text, and the version. */
  datatype Fields = Fields(
    version: int, server: string, channel: string, message: string, user: string, direction: string)

  datatype Codec = Codec(encode: Fields -> string, decode: string -> Option<Fields>, mac: string -> string)

  predicate UrlChar(c: char) {
    'A' <= c <= 'Z' || 'a' <= c <= 'z' || '0' <= c <= '9' || c == '_' || c == '-'
  }

  predicate UrlText(text: string) {
    text != [] && forall i :: 0 <= i < |text| ==> UrlChar(text[i])
  }

  ghost predicate Proper(k: Codec) {
    && (forall f :: UrlText(k.encode(f)) && k.decode(k.encode(f)) == Some(f))
    && (forall p :: UrlText(k.mac(p)) && |k.mac(p)| == 43)
  }

  // ---------------------------------------------------------------- numbers as text

  function Digit(n: nat): char
    requires n < 10
  {
    '0' + n as char
  }

  /** `String(n)` */
  function Decimal(n: nat): (text: string)
    ensures text != []
  {
    if n < 10 then [Digit(n)] else Decimal(n / 10) + [Digit(n % 10)]
  }

  /** The number a text of digits stands for; a text that is no number of the server reads as one with another text. */
  function ValueOf(text: string): nat {
    if text == [] then 0
    else
      var last := text[|text| - 1];
      10 * ValueOf(text[..|text| - 1]) + (if '0' <= last <= '9' then (last - '0') as nat else 0)
  }

  lemma {:induction false} ValueOfDecimal(n: nat)
    ensures ValueOf(Decimal(n)) == n
  {
    if n >= 10 {
      ValueOfDecimal(n / 10);
      assert Decimal(n)[..|Decimal(n)| - 1] == Decimal(n / 10);
    } else {
      assert Decimal(n)[..0] == [];
    }
  }

  lemma DecimalInjective(a: nat, b: nat)
    requires Decimal(a) == Decimal(b)
    ensures a == b
  {
    ValueOfDecimal(a);
    ValueOfDecimal(b);
  }

  /** A safe positive integer in the one form the server writes it. */
  function MessageOf(text: string): Option<MessageId> {
    var n := ValueOf(text);
    if 1 <= n <= MAX_SAFE_INTEGER && text == Decimal(n) then Some(n) else None
  }

  // ---------------------------------------------------------------- the token

  function Name(d: Direction): string {
    if d == Before then "before" else "after"
  }

  function FieldsOf(server: string, channel: ChannelId, user: UserId, c: Cursor): Fields {
    Fields(1, server, Decimal(channel), Decimal(c.message), Decimal(user), Name(c.direction))
  }

  /** `encodeHistoryCursor` */
  function EncodeCursor(k: Codec, server: string, channel: ChannelId, user: UserId, c: Cursor): string {
    var payload := k.encode(FieldsOf(server, channel, user, c));
    payload + "." + k.mac(payload)
  }

  /** Where the first dot stands. */
  function DotAt(text: string): (i: nat)
    ensures i <= |text|
  {
    if text == [] || text[0] == '.' then 0 else 1 + DotAt(text[1..])
  }

  /** The length and the pattern of a cursor. */
  predicate Gate(text: string) {
    && 32 <= |text| <= 1024 && 1 <= DotAt(text) < |text| - 1
    && UrlText(text[..DotAt(text)]) && UrlText(text[DotAt(text) + 1..])
  }

  function CursorOf(server: string, channel: ChannelId, user: UserId, f: Fields): Option<Cursor> {
    if f.version != 1 || f.server != server || f.channel != Decimal(channel) || f.user != Decimal(user)
       || (f.direction != "before" && f.direction != "after") || MessageOf(f.message) == None
    then None
    else Some(Cursor(MessageOf(f.message).value, if f.direction == "before" then Before else After))
  }

  /** `decodeHistoryCursor` */
  function DecodeCursor(k: Codec, server: string, channel: ChannelId, user: UserId, text: string): Option<Cursor> {
    if !Gate(text) then None
    else
      var payload, signature := text[..DotAt(text)], text[DotAt(text) + 1..];
      if signature != k.mac(payload) then None
      else match k.decode(payload)
        case None => None
        case Some(f) => CursorOf(server, channel, user, f)
  }

  // ---------------------------------------------------------------- who accepts what

  lemma {:induction false} DotBehind(a: string, b: string)
    requires UrlText(a)
    ensures DotAt(a + "." + b) == |a|
  {
    var text := a + "." + b;
    if |a| == 1 {
      assert text[1..] == "." + b;
    } else {
      DotBehind(a[1..], b);
      assert text[1..] == a[1..] + "." + b;
    }
  }

  lemma Parts(a: string, b: string)
    requires UrlText(a) && UrlText(b)
    ensures var text := a + "." + b;
            && DotAt(text) == |a| && |text| == |a| + 1 + |b| && text[..|a|] == a && text[|a| + 1..] == b
  {
    DotBehind(a, b);
  }

  lemma FieldsMatch(
    server: string, channel: ChannelId, user: UserId, server': string, channel': ChannelId, user': UserId, c: Cursor)
    ensures CursorOf(server', channel', user', FieldsOf(server, channel, user, c))
            == if server == server' && channel == channel' && user == user' && 1 <= c.message <= MAX_SAFE_INTEGER
               then Some(c) else None
  {
    ValueOfDecimal(c.message);
    if Decimal(channel) == Decimal(channel') {
      DecimalInjective(channel, channel');
    }
    if Decimal(user) == Decimal(user') {
      DecimalInjective(user, user');
    }
    assert "before" != "after" by {
      assert "before"[0] != "after"[0];
    }
  }

  /**
   A cursor a page handed out decodes to itself on the same server, for the same channel and user, as long as its
   text has at most 1024 characters, and to nothing anywhere else.
   */
  lemma CursorIsBound(
    k: Codec, server: string, channel: ChannelId, user: UserId,
    server': string, channel': ChannelId, user': UserId, c: Cursor)
    requires Proper(k)
    ensures var text := EncodeCursor(k, server, channel, user, c);
            DecodeCursor(k, server', channel', user', text)
            == if |text| <= 1024 && server == server' && channel == channel' && user == user'
                  && 1 <= c.message <= MAX_SAFE_INTEGER
               then Some(c) else None
  {
    var payload := k.encode(FieldsOf(server, channel, user, c));
    Parts(payload, k.mac(payload));
    FieldsMatch(server, channel, user, server', channel', user', c);
  }

  /** What decodes carries the signature of its payload, and a payload that names this server, channel, user and message. */
  lemma AcceptedMeans(k: Codec, server: string, channel: ChannelId, user: UserId, text: string)
    requires DecodeCursor(k, server, channel, user, text).Some?
    ensures exists payload ::
              && text == payload + "." + k.mac(payload)
              && k.decode(payload)
                 == Some(FieldsOf(server, channel, user, DecodeCursor(k, server, channel, user, text).value))
  {
    DotIsDot(text);
    var payload := text[..DotAt(text)];
    assert text == payload + "." + text[DotAt(text) + 1..];
  }

  lemma {:induction false} DotIsDot(text: string)
    requires DotAt(text) < |text|
    ensures text[DotAt(text)] == '.'
  {
    if text[0] != '.' {
      DotIsDot(text[1..]);
    }
  }

  /** Another payload with the signature of a cursor is refused by everyone, unless the two payloads have the same HMAC. */
  lemma TamperedIsRefused(
    k: Codec, server: string, channel: ChannelId, user: UserId, payload: string, other: string)
    requires Proper(k) && UrlText(other) && k.mac(other) != k.mac(payload)
    ensures DecodeCursor(k, server, channel, user, other + "." + k.mac(payload)) == None
  {
    Parts(other, k.mac(payload));
  }
}
