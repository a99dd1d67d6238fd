/** Following cursors through a channel that changes between the pages. */
module PaginationTheorems {
  import opened Common
  import opened Pagination

  // ---------------------------------------------------------------- tables change

  /** What any appends and deletions make of a table: nothing old comes back. */
  ghost predicate Later(a: Table, b: Table) {
    a.next <= b.next
    && forall id :: id in b.messages ==> id >= a.next || (id in a.messages && a.messages[id] == b.messages[id])
  }

  lemma AppendIsLater(t: Table, channel: ChannelId)
    requires TableOk(t)
    ensures TableOk(Appended(t, channel)) && Later(t, Appended(t, channel))
  {}

  lemma RemoveIsLater(t: Table, id: MessageId)
    requires TableOk(t)
    ensures TableOk(Removed(t, id)) && Later(t, Removed(t, id))
  {}

  lemma LaterTransitive(a: Table, b: Table, c: Table)
    requires Later(a, b) && Later(b, c)
    ensures Later(a, c)
  {}

  /** One request of a client: the table it meets and the limit it asks for. */
  datatype Visit = Visit(table: Table, limit: nat)

  ghost predicate Visits(visits: seq<Visit>) {
    && (forall i :: 0 <= i < |visits| ==> TableOk(visits[i].table) && 1 <= visits[i].limit <= MAX_LIMIT)
    && (forall i :: 0 <= i < |visits| - 1 ==> Later(visits[i].table, visits[i + 1].table))
  }

  // ---------------------------------------------------------------- what happens between two requests

  datatype Change = Append(channel: ChannelId) | Remove(id: MessageId)

  /** What the server and its users do before a request, and the limit of the request. */
  datatype Turn = Turn(changes: seq<Change>, limit: nat)

  function Changed(t: Table, changes: seq<Change>): Table
    decreases |changes|
  {
    if changes == [] then t
    else
      match changes[0]
      case Append(channel) => Changed(Appended(t, channel), changes[1..])
      case Remove(id) => Changed(Removed(t, id), changes[1..])
  }

  function VisitsOf(t: Table, turns: seq<Turn>): (visits: seq<Visit>)
    ensures |visits| == |turns|
    decreases |turns|
  {
    if turns == [] then []
    else
      var met := Changed(t, turns[0].changes);
      [Visit(met, turns[0].limit)] + VisitsOf(met, turns[1..])
  }

  lemma {:induction false} ChangedIsLater(t: Table, changes: seq<Change>)
    requires TableOk(t)
    ensures TableOk(Changed(t, changes)) && Later(t, Changed(t, changes))
    decreases |changes|
  {
    if changes != [] {
      match changes[0] {
        case Append(channel) =>
          AppendIsLater(t, channel);
          ChangedIsLater(Appended(t, channel), changes[1..]);
          LaterTransitive(t, Appended(t, channel), Changed(t, changes));
        case Remove(id) =>
          RemoveIsLater(t, id);
          ChangedIsLater(Removed(t, id), changes[1..]);
          LaterTransitive(t, Removed(t, id), Changed(t, changes));
      }
    }
  }

  ghost predicate LimitsOk(turns: seq<Turn>) {
    forall i :: 0 <= i < |turns| ==> 1 <= turns[i].limit <= MAX_LIMIT
  }

  /** The tables that requests meet among any appends and deletions. */
  lemma {:induction false} ChangesMakeVisits(t: Table, turns: seq<Turn>)
    requires TableOk(t) && LimitsOk(turns)
    ensures Visits(VisitsOf(t, turns))
    ensures turns != [] ==> Later(t, VisitsOf(t, turns)[0].table)
    decreases |turns|
  {
    if turns != [] {
      var met, rest := Changed(t, turns[0].changes), turns[1..];
      ChangedIsLater(t, turns[0].changes);
      assert LimitsOk(rest);
      ChangesMakeVisits(met, rest);
      VisitsCons(Visit(met, turns[0].limit), VisitsOf(met, rest));
    }
  }

  lemma VisitsCons(first: Visit, rest: seq<Visit>)
    requires Visits(rest) && TableOk(first.table) && 1 <= first.limit <= MAX_LIMIT
    requires rest != [] ==> Later(first.table, rest[0].table)
    ensures Visits([first] + rest)
  {
    var all := [first] + rest;
    forall i | 0 <= i < |all| - 1 ensures Later(all[i].table, all[i + 1].table) {
      if i > 0 {
        assert Later(rest[i - 1].table, rest[i - 1 + 1].table);
      }
    }
  }

  lemma VisitsParts(visits: seq<Visit>, n: nat)
    requires Visits(visits) && n <= |visits|
    ensures Visits(visits[..n]) && Visits(visits[n..])
  {
    var a, b := visits[..n], visits[n..];
    forall i | 0 <= i < |a| - 1 ensures Later(a[i].table, a[i + 1].table) {
      assert Later(visits[i].table, visits[i + 1].table);
    }
    forall i | 0 <= i < |b| - 1 ensures Later(b[i].table, b[i + 1].table) {
      assert Later(visits[n + i].table, visits[n + i + 1].table);
    }
  }

  lemma VisitsTail(visits: seq<Visit>)
    requires Visits(visits) && visits != []
    ensures Visits(visits[1..])
  {
    var rest := visits[1..];
    forall i | 0 <= i < |rest| - 1 ensures Later(rest[i].table, rest[i + 1].table) {
      assert Later(visits[i + 1].table, visits[i + 1 + 1].table);
    }
  }

  lemma {:induction false} FirstToLast(visits: seq<Visit>)
    requires Visits(visits) && visits != []
    ensures Later(visits[0].table, visits[|visits| - 1].table)
  {
    if |visits| > 1 {
      VisitsTail(visits);
      FirstToLast(visits[1..]);
      LaterTransitive(visits[0].table, visits[1].table, visits[|visits| - 1].table);
    }
  }

  // ---------------------------------------------------------------- one page

  lemma InOrdered(ids: set<nat>, x: nat)
    ensures x in ids <==> x in Ordered(ids)
  {
    assert x in Elements(Ordered(ids)) <==> x in Ordered(ids);
  }

  /** A backward page ends the candidates: whatever is left out is below everything on it. */
  lemma BackwardPage(t: Table, channel: ChannelId, cursor: Option<Cursor>, limit: nat)
    requires DirectionOf(cursor) == Before && limit >= 1
    ensures var page := PageOf(t, channel, cursor, limit);
            && Ascending(page.messages)
            && (forall x :: x in page.messages ==> x in Candidates(t, channel, cursor))
            && (forall x :: x in Candidates(t, channel, cursor) && x !in page.messages ==>
                  page.next.Some? && x < page.next.value.message)
            && (page.next.Some? ==> page.messages != [] && page.next.value == Cursor(page.messages[0], Before))
  {
    var ids := Ordered(Candidates(t, channel, cursor));
    var page := PageOf(t, channel, cursor, limit);
    forall x | x in page.messages ensures x in Candidates(t, channel, cursor) {
      InOrdered(Candidates(t, channel, cursor), x);
    }
    forall x | x in Candidates(t, channel, cursor)
      ensures x in page.messages || (page.next.Some? && x < page.next.value.message)
    {
      InOrdered(Candidates(t, channel, cursor), x);
      var i :| 0 <= i < |ids| && ids[i] == x;
      if i >= |ids| - limit && |ids| > limit {
        assert page.messages[i - (|ids| - limit)] == x;
      }
    }
  }

  /** A forward page begins the candidates: whatever is left out is above everything on it. */
  lemma ForwardPage(t: Table, channel: ChannelId, cursor: Cursor, limit: nat)
    requires cursor.direction == After && limit >= 1
    ensures var page := PageOf(t, channel, Some(cursor), limit);
            && Ascending(page.messages)
            && (forall x :: x in page.messages ==> x in Candidates(t, channel, Some(cursor)))
            && (forall x :: x in Candidates(t, channel, Some(cursor)) && x !in page.messages ==>
                  page.hasMore && page.messages != [] && page.messages[|page.messages| - 1] < x)
  {
    var ids := Ordered(Candidates(t, channel, Some(cursor)));
    var page := PageOf(t, channel, Some(cursor), limit);
    forall x | x in page.messages ensures x in Candidates(t, channel, Some(cursor)) {
      InOrdered(Candidates(t, channel, Some(cursor)), x);
    }
    forall x | x in Candidates(t, channel, Some(cursor))
      ensures x in page.messages || (page.hasMore && page.messages != [] && page.messages[|page.messages| - 1] < x)
    {
      InOrdered(Candidates(t, channel, Some(cursor)), x);
      var i :| 0 <= i < |ids| && ids[i] == x;
      if i < limit || |ids| <= limit {
        assert page.messages[i] == x;
      }
    }
  }

  // ---------------------------------------------------------------- walking back

  datatype Walk = Walk(collected: seq<MessageId>, finished: bool)

  /** Follows nextCursor; the older pages go in front. */
  ghost function WalkBack(visits: seq<Visit>, channel: ChannelId, cursor: Option<Cursor>): Walk
    decreases |visits|
  {
    if visits == [] then Walk([], false)
    else
      var page := PageOf(visits[0].table, channel, cursor, visits[0].limit);
      if page.next.None? then Walk(page.messages, true)
      else
        var rest := WalkBack(visits[1..], channel, page.next);
        Walk(rest.collected + page.messages, rest.finished)
  }

  /** Everything a cursor lets through is below this. */
  function Bound(t: Table, cursor: Option<Cursor>): nat {
    if cursor.Some? then cursor.value.message else t.next
  }

  /** What a walk has collected, whatever else happens. */
  ghost predicate Sound(t: Table, channel: ChannelId, bound: nat, collected: seq<MessageId>) {
    Ascending(collected) && forall x :: x in collected ==> x in Ids(t, channel) && x < bound
  }

  lemma BackwardStep(
    t: Table, later: Table, channel: ChannelId, cursor: Option<Cursor>, page: Page, rest: seq<MessageId>)
    requires TableOk(t) && Later(t, later) && DirectionOf(cursor) == Before
    requires Ascending(page.messages) && page.messages != []
    requires forall x :: x in page.messages ==> x in Candidates(t, channel, cursor)
    requires Sound(later, channel, page.messages[0], rest)
    ensures Sound(t, channel, Bound(t, cursor), rest + page.messages)
  {
    var all := rest + page.messages;
    assert page.messages[0] in page.messages;
    forall x | x in all ensures x in Ids(t, channel) && x < Bound(t, cursor) {
      if x in rest {
        assert x in Ids(later, channel) && x < page.messages[0];
      } else {
        assert x in page.messages;
      }
    }
    forall i, j | 0 <= i < j < |all| ensures all[i] < all[j] {
      if i < |rest| <= j {
        assert all[i] in rest;
        assert page.messages[0] <= page.messages[j - |rest|];
      }
    }
  }

  /** A walk back yields messages of the channel that were there at its start, once each, in order. */
  lemma {:induction false} WalkBackSound(visits: seq<Visit>, channel: ChannelId, cursor: Option<Cursor>)
    requires Visits(visits) && visits != [] && DirectionOf(cursor) == Before
    ensures Sound(visits[0].table, channel, Bound(visits[0].table, cursor), WalkBack(visits, channel, cursor).collected)
    ensures !WalkBack(visits, channel, cursor).finished ==> |WalkBack(visits, channel, cursor).collected| >= |visits|
    decreases |visits|
  {
    var t := visits[0].table;
    var page := PageOf(t, channel, cursor, visits[0].limit);
    BackwardPage(t, channel, cursor, visits[0].limit);
    if page.next.Some? {
      if |visits| == 1 {
        assert WalkBack(visits[1..], channel, page.next) == Walk([], false);
        BackwardStep(t, t, channel, cursor, page, []);
      } else {
        VisitsTail(visits);
        WalkBackSound(visits[1..], channel, page.next);
        BackwardStep(t, visits[1].table, channel, cursor, page, WalkBack(visits[1..], channel, page.next).collected);
      }
    } else {
      assert forall x :: x in page.messages ==> x in Candidates(t, channel, cursor);
    }
  }

  /** A finished walk back has yielded every message below its start that survives it. */
  lemma {:induction false} WalkBackComplete(visits: seq<Visit>, channel: ChannelId, cursor: Option<Cursor>, x: MessageId)
    requires Visits(visits) && visits != [] && DirectionOf(cursor) == Before
    requires WalkBack(visits, channel, cursor).finished
    requires x in Ids(visits[|visits| - 1].table, channel) && x < Bound(visits[0].table, cursor)
    requires x < visits[0].table.next
    ensures x in WalkBack(visits, channel, cursor).collected
    decreases |visits|
  {
    var t := visits[0].table;
    var page := PageOf(t, channel, cursor, visits[0].limit);
    FirstToLast(visits);
    assert x in Candidates(t, channel, cursor);
    BackwardPage(t, channel, cursor, visits[0].limit);
    if page.next.Some? && x !in page.messages {
      VisitsTail(visits);
      assert Later(visits[0].table, visits[0 + 1].table);
      WalkBackComplete(visits[1..], channel, page.next, x);
    }
  }

  lemma AscendingCount(s: seq<nat>, ids: set<nat>)
    requires Ascending(s) && forall x :: x in s ==> x in ids
    ensures |s| <= |ids|
  {
    AscendingElements(s);
    SubsetCount(Elements(s), ids);
  }

  lemma {:induction false} AscendingElements(s: seq<nat>)
    requires Ascending(s)
    ensures |Elements(s)| == |s|
  {
    if s != [] {
      TailElements(s);
      AscendingElements(s[1..]);
      assert s[0] in Elements(s);
    }
  }

  /** A walk back ends: it takes no more pages than the channel had messages when it began, and one. */
  lemma WalkBackEnds(visits: seq<Visit>, channel: ChannelId, cursor: Option<Cursor>)
    requires Visits(visits) && DirectionOf(cursor) == Before && visits != []
    requires |visits| > |Ids(visits[0].table, channel)|
    ensures WalkBack(visits, channel, cursor).finished
  {
    WalkBackSound(visits, channel, cursor);
    AscendingCount(WalkBack(visits, channel, cursor).collected, Ids(visits[0].table, channel));
  }

  // ---------------------------------------------------------------- walking forward

  datatype Progress = Progress(collected: seq<MessageId>, at: MessageId)

  /** Follows forwardCursor; the newer pages go behind. */
  ghost function WalkForward(visits: seq<Visit>, channel: ChannelId, at: MessageId): Progress
    decreases |visits|
  {
    if visits == [] then Progress([], at)
    else
      var page := PageOf(visits[0].table, channel, Some(Cursor(at, After)), visits[0].limit);
      var rest := WalkForward(visits[1..], channel, page.forward.value.message);
      Progress(page.messages + rest.collected, rest.at)
  }

  function PageEnd(page: Page, at: MessageId): MessageId {
    if page.messages == [] then at else page.messages[|page.messages| - 1]
  }

  lemma ForwardEnd(t: Table, channel: ChannelId, at: MessageId, limit: nat)
    requires limit >= 1
    ensures var page := PageOf(t, channel, Some(Cursor(at, After)), limit);
            && page.forward == Some(Cursor(PageEnd(page, at), After))
            && at <= PageEnd(page, at)
            && (forall x :: x in page.messages ==> at < x <= PageEnd(page, at))
  {
    ForwardPage(t, channel, Cursor(at, After), limit);
    var page := PageOf(t, channel, Some(Cursor(at, After)), limit);
    forall x | x in page.messages ensures at < x <= PageEnd(page, at) {
      var i :| 0 <= i < |page.messages| && page.messages[i] == x;
    }
    if page.messages != [] {
      assert page.messages[|page.messages| - 1] in page.messages;
    }
  }

  /** A walk forward yields messages above its start and up to its cursor, once each, in order. */
  lemma {:induction false} WalkForwardSound(visits: seq<Visit>, channel: ChannelId, at: MessageId)
    requires Visits(visits)
    ensures var w := WalkForward(visits, channel, at);
            && at <= w.at && Ascending(w.collected)
            && (forall x :: x in w.collected ==> at < x <= w.at)
            && (forall x :: x in w.collected ==> exists i :: 0 <= i < |visits| && x in Ids(visits[i].table, channel))
    decreases |visits|
  {
    if visits != [] {
      var t := visits[0].table;
      var page := PageOf(t, channel, Some(Cursor(at, After)), visits[0].limit);
      ForwardPage(t, channel, Cursor(at, After), visits[0].limit);
      ForwardEnd(t, channel, at, visits[0].limit);
      VisitsTail(visits);
      WalkForwardSound(visits[1..], channel, PageEnd(page, at));
      var rest := WalkForward(visits[1..], channel, PageEnd(page, at));
      AppendAbove(page.messages, rest.collected, PageEnd(page, at));
      forall x | x in page.messages + rest.collected
        ensures at < x <= rest.at && exists i :: 0 <= i < |visits| && x in Ids(visits[i].table, channel)
      {
        if x in page.messages {
          assert x in Ids(visits[0].table, channel);
        } else {
          var i :| 0 <= i < |visits[1..]| && x in Ids(visits[1..][i].table, channel);
          assert x in Ids(visits[i + 1].table, channel);
        }
      }
    }
  }

  lemma AppendAbove(a: seq<nat>, b: seq<nat>, pivot: nat)
    requires Ascending(a) && Ascending(b)
    requires (forall x :: x in a ==> x <= pivot) && (forall x :: x in b ==> pivot < x)
    ensures Ascending(a + b)
  {
    var c := a + b;
    forall i, j | 0 <= i < j < |c| ensures c[i] < c[j] {
      if i < |a| <= j {
        assert c[i] in a && c[j] in b;
      }
    }
  }

  /** Every message between the start and the cursor that is there at the end was yielded. */
  lemma {:induction false} WalkForwardComplete(visits: seq<Visit>, channel: ChannelId, at: MessageId, x: MessageId)
    requires Visits(visits) && visits != []
    requires x in Ids(visits[|visits| - 1].table, channel) && at < x <= WalkForward(visits, channel, at).at
    ensures x in WalkForward(visits, channel, at).collected
    decreases |visits|
  {
    var t := visits[0].table;
    var page := PageOf(t, channel, Some(Cursor(at, After)), visits[0].limit);
    ForwardPage(t, channel, Cursor(at, After), visits[0].limit);
    ForwardEnd(t, channel, at, visits[0].limit);
    if |visits| == 1 {
      assert WalkForward(visits[1..], channel, PageEnd(page, at)) == Progress([], PageEnd(page, at));
    }
    if x <= PageEnd(page, at) {
      FirstToLast(visits);
      assert PageEnd(page, at) in page.messages;
      assert x in Candidates(t, channel, Some(Cursor(at, After)));
    } else if |visits| > 1 {
      VisitsTail(visits);
      WalkForwardComplete(visits[1..], channel, PageEnd(page, at), x);
    }
  }

  /** The last page of a walk forward had nothing behind it. */
  ghost predicate CaughtUp(visits: seq<Visit>, channel: ChannelId, at: MessageId)
    requires visits != []
  {
    var earlier := WalkForward(visits[..|visits| - 1], channel, at);
    var last := visits[|visits| - 1];
    !PageOf(last.table, channel, Some(Cursor(earlier.at, After)), last.limit).hasMore
  }

  lemma {:induction false} WalkForwardSplit(visits: seq<Visit>, channel: ChannelId, at: MessageId)
    requires Visits(visits) && visits != []
    ensures var earlier := WalkForward(visits[..|visits| - 1], channel, at);
            var last := visits[|visits| - 1];
            WalkForward(visits, channel, at).at
            == PageEnd(PageOf(last.table, channel, Some(Cursor(earlier.at, After)), last.limit), earlier.at)
    decreases |visits|
  {
    var page := PageOf(visits[0].table, channel, Some(Cursor(at, After)), visits[0].limit);
    ForwardEnd(visits[0].table, channel, at, visits[0].limit);
    if |visits| == 1 {
      assert WalkForward(visits[1..], channel, PageEnd(page, at)) == Progress([], PageEnd(page, at));
    } else {
      VisitsTail(visits);
      WalkForwardSplit(visits[1..], channel, PageEnd(page, at));
      assert visits[1..][..|visits[1..]| - 1] == visits[..|visits| - 1][1..];
    }
  }

  /** Once caught up, a walk forward has yielded every message above its start. */
  lemma ForwardCatchesUp(visits: seq<Visit>, channel: ChannelId, at: MessageId, x: MessageId)
    requires Visits(visits) && visits != [] && CaughtUp(visits, channel, at)
    requires x in Ids(visits[|visits| - 1].table, channel) && at < x
    ensures x in WalkForward(visits, channel, at).collected
  {
    var earlier := WalkForward(visits[..|visits| - 1], channel, at);
    var last := visits[|visits| - 1];
    var page := PageOf(last.table, channel, Some(Cursor(earlier.at, After)), last.limit);
    ForwardPage(last.table, channel, Cursor(earlier.at, After), last.limit);
    ForwardEnd(last.table, channel, earlier.at, last.limit);
    WalkForwardSplit(visits, channel, at);
    if x > earlier.at {
      assert x in Candidates(last.table, channel, Some(Cursor(earlier.at, After)));
      assert x in page.messages;
    }
    WalkForwardComplete(visits, channel, at, x);
  }

  // ---------------------------------------------------------------- both directions together

  /** The newest message of the first page is the newest of the channel. */
  lemma FirstPageIsNewest(t: Table, channel: ChannelId, limit: nat, x: MessageId)
    requires limit >= 1 && x in Ids(t, channel)
    ensures var page := PageOf(t, channel, None, limit);
            page.messages != [] && x <= page.messages[|page.messages| - 1]
            && page.forward == Some(Cursor(page.messages[|page.messages| - 1], After))
  {
    var page := PageOf(t, channel, None, limit);
    assert x in Candidates(t, channel, None);
    BackwardPage(t, channel, None, limit);
    if x in page.messages {
      var i :| 0 <= i < |page.messages| && page.messages[i] == x;
    }
  }

  /** The message the first page's forward cursor stands at. */
  ghost function Newest(visit: Visit, channel: ChannelId): (m: MessageId)
    requires visit.limit >= 1 && Ids(visit.table, channel) != {}
    ensures PageOf(visit.table, channel, None, visit.limit).forward == Some(Cursor(m, After))
    ensures m in Ids(visit.table, channel) && forall x :: x in Ids(visit.table, channel) ==> x <= m
  {
    var page := PageOf(visit.table, channel, None, visit.limit);
    assert page.messages != [] by {
      var x :| x in Ids(visit.table, channel);
      FirstPageIsNewest(visit.table, channel, visit.limit, x);
    }
    var m := page.messages[|page.messages| - 1];
    assert forall x :: x in Ids(visit.table, channel) ==> x <= m by {
      forall x | x in Ids(visit.table, channel) ensures x <= m {
        FirstPageIsNewest(visit.table, channel, visit.limit, x);
      }
    }
    assert m in Ids(visit.table, channel) by {
      BackwardPage(visit.table, channel, None, visit.limit);
      assert m in page.messages;
    }
    m
  }

  /** The newest page of a channel with messages, back from it to the end, and forward from it until caught up. */
  ghost predicate WalkedBothWays(back: seq<Visit>, ahead: seq<Visit>, channel: ChannelId) {
    && back != [] && ahead != [] && back[0].limit >= 1 && Ids(back[0].table, channel) != {}
    && WalkBack(back, channel, None).finished
    && CaughtUp(ahead, channel, Newest(back[0], channel))
  }

  ghost predicate Seen(back: seq<Visit>, ahead: seq<Visit>, channel: ChannelId, x: MessageId)
    requires WalkedBothWays(back, ahead, channel)
  {
    x in WalkBack(back, channel, None).collected || x in WalkForward(ahead, channel, Newest(back[0], channel)).collected
  }

  lemma BothWalks(back: seq<Visit>, ahead: seq<Visit>, channel: ChannelId, x: MessageId)
    requires Visits(back + ahead) && Visits(back) && Visits(ahead) && WalkedBothWays(back, ahead, channel)
    requires x in Ids(ahead[|ahead| - 1].table, channel)
    ensures Seen(back, ahead, channel, x)
  {
    var newest := Newest(back[0], channel);
    if x <= newest {
      LastsThrough(back, ahead);
      assert newest < back[0].table.next;
      assert x in Ids(back[|back| - 1].table, channel);
      WalkBackComplete(back, channel, None, x);
    } else {
      ForwardCatchesUp(ahead, channel, newest, x);
    }
  }

  lemma CutInTwo(visits: seq<Visit>, n: nat)
    requires n < |visits|
    ensures visits[..n] + visits[n..] == visits && visits[n..][|visits| - n - 1] == visits[|visits| - 1]
  {}

  /**
   A client takes the newest page of a channel that has messages, walks back to the end with n requests and then,
   starting from the forward cursor of that first page, forward until it has caught up. Whatever is appended and
   deleted before each of the requests, it has then seen every message that is still there.
   */
  lemma WholeHistoryIsSeen(t: Table, turns: seq<Turn>, n: nat, channel: ChannelId, x: MessageId)
    requires TableOk(t) && LimitsOk(turns) && n < |turns|
    requires WalkedBothWays(VisitsOf(t, turns)[..n], VisitsOf(t, turns)[n..], channel)
    requires x in Ids(VisitsOf(t, turns)[|turns| - 1].table, channel)
    ensures Seen(VisitsOf(t, turns)[..n], VisitsOf(t, turns)[n..], channel, x)
  {
    var all := VisitsOf(t, turns);
    ChangesMakeVisits(t, turns);
    VisitsParts(all, n);
    CutInTwo(all, n);
    BothWalks(all[..n], all[n..], channel, x);
  }

  lemma LastsThrough(back: seq<Visit>, ahead: seq<Visit>)
    requires back != [] && ahead != [] && Visits(back + ahead) && Visits(back) && Visits(ahead)
    ensures Later(back[|back| - 1].table, ahead[|ahead| - 1].table)
    ensures back[0].table.next <= back[|back| - 1].table.next
  {
    var all := back + ahead;
    assert Later(all[|back| - 1].table, all[|back| - 1 + 1].table);
    FirstToLast(back);
    FirstToLast(ahead);
    LaterTransitive(back[|back| - 1].table, ahead[0].table, ahead[|ahead| - 1].table);
  }
}
