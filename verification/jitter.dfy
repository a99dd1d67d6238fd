/**
 The audio jitter buffer between the capture thread and the feeder thread. Every section under
 ring_mutex_ is one step; the conversion of packets to mono samples and the audio device are not
 part of this model. Times are nanoseconds of a steady clock.
 */
module Jitter {
  import opened Common

  type Sample = x: int | -0x8000 <= x < 0x8000
  type Time = nat

  const SECOND: nat := 1_000_000_000

  function FramesPer10ms(rate: nat): nat {
    rate / 100
  }

  function Capacity(rate: nat): nat {
    25 * (rate / 50)
  }

  /** The 160 ms that are collected before the first frame is delivered. */
  function Target(rate: nat): nat {
    16 * FramesPer10ms(rate)
  }

  /** The 200 ms above which the oldest frames are dropped. */
  function MaxBuffered(rate: nat): nat {
    20 * FramesPer10ms(rate)
  }

  /**
   `contents` are the buffered frames, oldest first. The last five fields are the books: everything
   captured so far, and how much of it was played, taken while nothing was there to play it,
   overwritten in the full ring or trimmed.
   */
  datatype State = State(
    contents: seq<Sample>, prebuffering: bool, start: Option<Time>, delivered: nat,
    captured: seq<Sample>, consumed: nat, unheard: nat, overwritten: nat, trimmed: nat)

  function Initial(): State {
    State([], true, None, 0, [], 0, 0, 0, 0)
  }

  /** One captured frame; a full ring loses its oldest frame. */
  function PushedOne(s: State, rate: nat, x: Sample): State
    requires rate >= 50
  {
    if |s.contents| >= Capacity(rate) && s.contents != []
    then s.(contents := s.contents[1..] + [x], captured := s.captured + [x], overwritten := s.overwritten + 1)
    else s.(contents := s.contents + [x], captured := s.captured + [x])
  }

  /** One captured packet. */
  function Pushed(s: State, rate: nat, frames: seq<Sample>): State
    requires rate >= 50
    decreases |frames|
  {
    if frames == [] then s
    else PushedOne(Pushed(s, rate, frames[..|frames| - 1]), rate, frames[|frames| - 1])
  }

  /** The frames a perfectly paced feeder would have delivered by now. */
  function Expected(s: State, rate: nat, now: Time): nat {
    match s.start
    case None => 0
    case Some(start) => if now <= start then 0 else (now - start) * rate / SECOND
  }

  datatype Outcome = DriftSkip | Buffering | Unheard | Delivered(feed: seq<Sample>)

  /** More than one packet ahead of the clock. */
  predicate Ahead(s: State, rate: nat, now: Time) {
    s.start.Some? && s.delivered > Expected(s, rate, now) + FramesPer10ms(rate)
  }

  function Trimmed(s: State, rate: nat): State {
    if |s.contents| > MaxBuffered(rate) then
      var drop := |s.contents| - MaxBuffered(rate);
      s.(contents := s.contents[drop..], trimmed := s.trimmed + drop)
    else s
  }

  predicate StillBuffering(s: State, rate: nat) {
    s.prebuffering && |s.contents| < Target(rate)
  }

  function Started(s: State, now: Time): State {
    if s.prebuffering then s.(prebuffering := false, start := Some(now)) else s
  }

  function ToCopy(s: State, rate: nat): nat {
    if |s.contents| < FramesPer10ms(rate) then |s.contents| else FramesPer10ms(rate)
  }

  function Silence(n: nat): (z: seq<Sample>)
    ensures |z| == n && forall i :: 0 <= i < n ==> z[i] == 0
  {
    seq(n, i => 0)
  }

  /** The next 10 ms, filled up with silence. */
  function Feed(s: State, rate: nat): seq<Sample> {
    s.contents[..ToCopy(s, rate)] + Silence(FramesPer10ms(rate) - ToCopy(s, rate))
  }

  /** `attached` says whether there is an audio source to hand the feed to. */
  function Consumed(s: State, rate: nat, attached: bool): State {
    var rest := s.(contents := s.contents[ToCopy(s, rate)..]);
    if attached then rest.(consumed := s.consumed + ToCopy(s, rate), delivered := s.delivered + FramesPer10ms(rate))
    else rest.(unheard := s.unheard + ToCopy(s, rate))
  }

  /** One tick of the feeder. */
  function Ticked(s: State, rate: nat, now: Time, attached: bool): State {
    if Ahead(s, rate, now) then s
    else
      var t := Trimmed(s, rate);
      if StillBuffering(t, rate) then t else Consumed(Started(t, now), rate, attached)
  }

  function TickOutcome(s: State, rate: nat, now: Time, attached: bool): Outcome {
    if Ahead(s, rate, now) then DriftSkip
    else
      var t := Trimmed(s, rate);
      if StillBuffering(t, rate) then Buffering
      else if attached then Delivered(Feed(Started(t, now), rate)) else Unheard
  }

  datatype Event = Capture(frames: seq<Sample>) | Tick(now: Time, attached: bool)

  function Step(s: State, rate: nat, e: Event): State
    requires rate >= 50
  {
    match e
    case Capture(frames) => Pushed(s, rate, frames)
    case Tick(now, attached) => Ticked(s, rate, now, attached)
  }

  function Run(s: State, rate: nat, events: seq<Event>): State
    requires rate >= 50
    decreases |events|
  {
    if events == [] then s else Step(Run(s, rate, events[..|events| - 1]), rate, events[|events| - 1])
  }

  // ---------------------------------------------------------------- conservation

  /** The buffered frames are the last captured ones, in order. */
  ghost predicate IsEnd(contents: seq<Sample>, captured: seq<Sample>) {
    |contents| <= |captured| && contents == captured[|captured| - |contents|..]
  }

  /** Every captured frame is accounted for. */
  ghost predicate Inv(s: State, rate: nat) {
    && IsEnd(s.contents, s.captured) && |s.contents| <= Capacity(rate)
    && |s.captured| == s.consumed + s.unheard + s.overwritten + s.trimmed + |s.contents|
    && (s.prebuffering <==> s.start.None?)
    && (s.prebuffering ==> s.delivered == 0 && s.consumed == 0)
  }

  lemma EndShift(captured: seq<Sample>, contents: seq<Sample>, drop: nat)
    requires IsEnd(contents, captured) && drop <= |contents|
    ensures IsEnd(contents[drop..], captured)
  {}

  lemma EndGrow(captured: seq<Sample>, contents: seq<Sample>, x: Sample)
    requires IsEnd(contents, captured)
    ensures IsEnd(contents + [x], captured + [x])
  {}

  lemma PushOneKeeps(s: State, rate: nat, x: Sample)
    requires rate >= 50 && Inv(s, rate)
    ensures Inv(PushedOne(s, rate, x), rate)
  {
    assert IsEnd(PushedOne(s, rate, x).contents, PushedOne(s, rate, x).captured) by {
      if |s.contents| >= Capacity(rate) && s.contents != [] {
        EndShift(s.captured, s.contents, 1);
        EndGrow(s.captured, s.contents[1..], x);
      } else {
        EndGrow(s.captured, s.contents, x);
      }
    }
  }

  lemma {:induction false} PushKeeps(s: State, rate: nat, frames: seq<Sample>)
    requires rate >= 50 && Inv(s, rate)
    ensures Inv(Pushed(s, rate, frames), rate)
    decreases |frames|
  {
    if frames != [] {
      PushKeeps(s, rate, frames[..|frames| - 1]);
      PushOneKeeps(Pushed(s, rate, frames[..|frames| - 1]), rate, frames[|frames| - 1]);
    }
  }

  lemma {:induction false} PushCaptures(s: State, rate: nat, frames: seq<Sample>)
    requires rate >= 50
    ensures Pushed(s, rate, frames).captured == s.captured + frames
    decreases |frames|
  {
    if frames != [] {
      PushCaptures(s, rate, frames[..|frames| - 1]);
    }
  }

  lemma TrimKeeps(s: State, rate: nat)
    requires Inv(s, rate)
    ensures Inv(Trimmed(s, rate), rate)
  {
    if |s.contents| > MaxBuffered(rate) {
      EndShift(s.captured, s.contents, |s.contents| - MaxBuffered(rate));
    }
  }

  lemma ConsumeKeeps(s: State, rate: nat, attached: bool)
    requires Inv(s, rate) && !s.prebuffering
    ensures Inv(Consumed(s, rate, attached), rate)
  {
    EndShift(s.captured, s.contents, ToCopy(s, rate));
  }

  lemma TickKeeps(s: State, rate: nat, now: Time, attached: bool)
    requires Inv(s, rate)
    ensures Inv(Ticked(s, rate, now, attached), rate)
  {
    TrimKeeps(s, rate);
    ConsumeKeeps(Started(Trimmed(s, rate), now), rate, attached);
  }

  lemma {:induction false} RunKeeps(s: State, rate: nat, events: seq<Event>)
    requires rate >= 50 && Inv(s, rate)
    ensures Inv(Run(s, rate, events), rate)
    decreases |events|
  {
    if events != [] {
      var before := Run(s, rate, events[..|events| - 1]);
      RunKeeps(s, rate, events[..|events| - 1]);
      match events[|events| - 1] {
        case Capture(frames) => PushKeeps(before, rate, frames);
        case Tick(now, attached) => TickKeeps(before, rate, now, attached);
      }
    }
  }

  /** What the packets of a run carried. */
  function Packets(events: seq<Event>): seq<Sample>
    decreases |events|
  {
    if events == [] then []
    else
      Packets(events[..|events| - 1])
      + (if events[|events| - 1].Capture? then events[|events| - 1].frames else [])
  }

  /**
   For every interleaving of packets and ticks: the buffer holds exactly the last captured frames
   in order, and captured = played + unheard + overwritten + trimmed + buffered.
   */
  lemma {:induction false} NothingIsLostUnaccounted(rate: nat, events: seq<Event>)
    requires rate >= 50
    ensures var s := Run(Initial(), rate, events);
            && s.captured == Packets(events)
            && |s.contents| <= |Packets(events)|
            && s.contents == Packets(events)[|Packets(events)| - |s.contents|..]
            && |Packets(events)| == s.consumed + s.unheard + s.overwritten + s.trimmed + |s.contents|
  {
    RunKeeps(Initial(), rate, events);
    CapturedIsPackets(rate, events);
  }

  lemma {:induction false} CapturedIsPackets(rate: nat, events: seq<Event>)
    requires rate >= 50
    ensures Run(Initial(), rate, events).captured == Packets(events)
    decreases |events|
  {
    if events != [] {
      var before := Run(Initial(), rate, events[..|events| - 1]);
      CapturedIsPackets(rate, events[..|events| - 1]);
      if events[|events| - 1].Capture? {
        PushCaptures(before, rate, events[|events| - 1].frames);
      }
    }
  }

  // ---------------------------------------------------------------- what is heard

  /** The number of captured frames that have left the ring, one way or another. */
  function Gone(s: State): nat {
    if |s.contents| <= |s.captured| then |s.captured| - |s.contents| else 0
  }

  /** Which captured frame the j-th sample of a feed is; behind the buffered frames comes silence. */
  function Origin(t: State, rate: nat, j: nat): Option<nat> {
    if j < ToCopy(t, rate) then Some(Gone(t) + j) else None
  }

  function FeedOrigins(t: State, rate: nat): (origins: seq<Option<nat>>)
    ensures |origins| == FramesPer10ms(rate)
    ensures forall j :: 0 <= j < |origins| ==> origins[j] == Origin(t, rate, j)
  {
    seq(FramesPer10ms(rate), j requires 0 <= j => Origin(t, rate, j))
  }

  function TickOrigins(s: State, rate: nat, now: Time, attached: bool): seq<Option<nat>> {
    if TickOutcome(s, rate, now, attached).Delivered? then FeedOrigins(Trimmed(s, rate), rate) else []
  }

  /** Everything handed to the audio source in a run, one feed after the other. */
  function Heard(rate: nat, events: seq<Event>): seq<Sample>
    requires rate >= 50
    decreases |events|
  {
    if events == [] then []
    else
      var last, s := events[|events| - 1], Run(Initial(), rate, events[..|events| - 1]);
      Heard(rate, events[..|events| - 1])
      + (if last.Tick? && TickOutcome(s, rate, last.now, last.attached).Delivered?
         then TickOutcome(s, rate, last.now, last.attached).feed else [])
  }

  function Origins(rate: nat, events: seq<Event>): seq<Option<nat>>
    requires rate >= 50
    decreases |events|
  {
    if events == [] then []
    else
      var last, s := events[|events| - 1], Run(Initial(), rate, events[..|events| - 1]);
      Origins(rate, events[..|events| - 1]) + (if last.Tick? then TickOrigins(s, rate, last.now, last.attached) else [])
  }

  /** Every sample is the captured frame it comes from, or silence. */
  ghost predicate Faithful(captured: seq<Sample>, heard: seq<Sample>, origins: seq<Option<nat>>) {
    && |heard| == |origins|
    && forall j :: 0 <= j < |heard| ==>
         match origins[j]
         case None => heard[j] == 0
         case Some(i) => i < |captured| && heard[j] == captured[i]
  }

  /** The captured frames that were heard: each once, in the order of capture. */
  ghost predicate InOrder(origins: seq<Option<nat>>) {
    forall j, k :: 0 <= j < k < |origins| && origins[j].Some? && origins[k].Some? ==> origins[j].value < origins[k].value
  }

  ghost predicate Within(origins: seq<Option<nat>>, low: nat, high: nat) {
    forall j :: 0 <= j < |origins| && origins[j].Some? ==> low <= origins[j].value < high
  }

  lemma FeedIsFaithful(t: State, rate: nat)
    requires Inv(t, rate)
    ensures Faithful(t.captured, Feed(t, rate), FeedOrigins(t, rate))
  {
    forall j | 0 <= j < ToCopy(t, rate) ensures Gone(t) + j < |t.captured| && Feed(t, rate)[j] == t.captured[Gone(t) + j] {
      assert t.contents[j] == t.captured[Gone(t) + j];
    }
  }

  lemma FeedInOrder(t: State, rate: nat, attached: bool)
    requires Inv(t, rate)
    ensures InOrder(FeedOrigins(t, rate))
    ensures Within(FeedOrigins(t, rate), Gone(t), Gone(Consumed(t, rate, attached)))
    ensures Gone(t) <= Gone(Consumed(t, rate, attached))
  {}

  lemma TrimLeaves(s: State, rate: nat)
    requires Inv(s, rate)
    ensures Gone(s) <= Gone(Trimmed(s, rate))
  {}

  /** Starting changes neither the feed nor where it comes from. */
  lemma StartedFeeds(t: State, rate: nat, now: Time)
    ensures Feed(Started(t, now), rate) == Feed(t, rate) && FeedOrigins(Started(t, now), rate) == FeedOrigins(t, rate)
    ensures Gone(Started(t, now)) == Gone(t) && Started(t, now).captured == t.captured
    ensures !StillBuffering(t, rate) && Inv(t, rate) ==> Inv(Started(t, now), rate)
  {
    assert forall j :: 0 <= j < FramesPer10ms(rate) ==> Origin(Started(t, now), rate, j) == Origin(t, rate, j);
  }

  /** A tick hands out frames behind all that were handed out before. */
  lemma TickIsFaithful(s: State, rate: nat, now: Time, attached: bool)
    requires Inv(s, rate)
    ensures Gone(s) <= Gone(Ticked(s, rate, now, attached))
    ensures TickOutcome(s, rate, now, attached).Delivered? ==>
              Faithful(s.captured, TickOutcome(s, rate, now, attached).feed, TickOrigins(s, rate, now, attached))
    ensures InOrder(TickOrigins(s, rate, now, attached))
    ensures Within(TickOrigins(s, rate, now, attached), Gone(s), Gone(Ticked(s, rate, now, attached)))
  {
    var t := Trimmed(s, rate);
    TrimKeeps(s, rate);
    TrimLeaves(s, rate);
    if !Ahead(s, rate, now) && !StillBuffering(t, rate) {
      var u := Started(t, now);
      StartedFeeds(t, rate, now);
      FeedIsFaithful(t, rate);
      FeedInOrder(u, rate, attached);
      TickFeeds(s, rate, now, attached);
    }
  }

  lemma TickFeeds(s: State, rate: nat, now: Time, attached: bool)
    requires !Ahead(s, rate, now) && !StillBuffering(Trimmed(s, rate), rate)
    ensures var t := Trimmed(s, rate);
            && Ticked(s, rate, now, attached) == Consumed(Started(t, now), rate, attached)
            && TickOutcome(s, rate, now, attached) == (if attached then Delivered(Feed(Started(t, now), rate)) else Unheard)
            && TickOrigins(s, rate, now, attached) == (if attached then FeedOrigins(t, rate) else [])
            && t.captured == s.captured
  {}

  lemma PushOneLeaves(s: State, rate: nat, x: Sample)
    requires rate >= 50 && Inv(s, rate)
    ensures Gone(s) <= Gone(PushedOne(s, rate, x))
  {}

  lemma {:induction false} PushLeaves(s: State, rate: nat, frames: seq<Sample>)
    requires rate >= 50 && Inv(s, rate)
    ensures Gone(s) <= Gone(Pushed(s, rate, frames))
    decreases |frames|
  {
    if frames != [] {
      PushKeeps(s, rate, frames[..|frames| - 1]);
      PushLeaves(s, rate, frames[..|frames| - 1]);
      PushOneLeaves(Pushed(s, rate, frames[..|frames| - 1]), rate, frames[|frames| - 1]);
    }
  }

  lemma FaithfulLonger(captured: seq<Sample>, more: seq<Sample>, heard: seq<Sample>, origins: seq<Option<nat>>)
    requires Faithful(captured, heard, origins)
    ensures Faithful(captured + more, heard, origins)
  {}

  lemma FaithfulAppend(
    captured: seq<Sample>, a: seq<Sample>, ao: seq<Option<nat>>, b: seq<Sample>, bo: seq<Option<nat>>)
    requires Faithful(captured, a, ao) && Faithful(captured, b, bo)
    ensures Faithful(captured, a + b, ao + bo)
  {}

  lemma InOrderAppend(a: seq<Option<nat>>, b: seq<Option<nat>>, pivot: nat, high: nat)
    requires InOrder(a) && InOrder(b) && Within(a, 0, pivot) && Within(b, pivot, high) && pivot <= high
    ensures InOrder(a + b) && Within(a + b, 0, high)
  {}

  /** What a run has handed out so far. */
  ghost predicate HeardOk(s: State, heard: seq<Sample>, origins: seq<Option<nat>>) {
    Faithful(s.captured, heard, origins) && InOrder(origins) && Within(origins, 0, Gone(s))
  }

  lemma TickHeard(s: State, rate: nat, now: Time, attached: bool, heard: seq<Sample>, origins: seq<Option<nat>>)
    requires Inv(s, rate) && HeardOk(s, heard, origins)
    ensures var outcome := TickOutcome(s, rate, now, attached);
            HeardOk(Ticked(s, rate, now, attached), heard + (if outcome.Delivered? then outcome.feed else []),
                    origins + TickOrigins(s, rate, now, attached))
  {
    TickIsFaithful(s, rate, now, attached);
    var outcome := TickOutcome(s, rate, now, attached);
    var feed := if outcome.Delivered? then outcome.feed else [];
    FaithfulAppend(s.captured, heard, origins, feed, TickOrigins(s, rate, now, attached));
    InOrderAppend(origins, TickOrigins(s, rate, now, attached), Gone(s), Gone(Ticked(s, rate, now, attached)));
  }

  lemma PushHeard(s: State, rate: nat, frames: seq<Sample>, heard: seq<Sample>, origins: seq<Option<nat>>)
    requires rate >= 50 && Inv(s, rate) && HeardOk(s, heard, origins)
    ensures HeardOk(Pushed(s, rate, frames), heard, origins)
  {
    PushCaptures(s, rate, frames);
    PushLeaves(s, rate, frames);
    FaithfulLonger(s.captured, frames, heard, origins);
  }

  /**
   For every interleaving of packets and ticks: what the audio source is handed is, sample by sample, silence or a
   captured frame, and the captured frames among it come in the order of capture, none of them twice.
   */
  lemma {:induction false} HeardOnceInOrder(rate: nat, events: seq<Event>)
    requires rate >= 50
    ensures Faithful(Packets(events), Heard(rate, events), Origins(rate, events)) && InOrder(Origins(rate, events))
  {
    RunHeard(rate, events);
    CapturedIsPackets(rate, events);
  }

  lemma {:induction false} RunHeard(rate: nat, events: seq<Event>)
    requires rate >= 50
    ensures HeardOk(Run(Initial(), rate, events), Heard(rate, events), Origins(rate, events))
    decreases |events|
  {
    if events != [] {
      var earlier, last := events[..|events| - 1], events[|events| - 1];
      var s := Run(Initial(), rate, earlier);
      RunHeard(rate, earlier);
      RunKeeps(Initial(), rate, earlier);
      match last {
        case Capture(frames) =>
          PushHeard(s, rate, frames, Heard(rate, earlier), Origins(rate, earlier));
          assert Heard(rate, events) == Heard(rate, earlier) && Origins(rate, events) == Origins(rate, earlier);
        case Tick(now, attached) =>
          TickHeard(s, rate, now, attached, Heard(rate, earlier), Origins(rate, earlier));
      }
    }
  }

  /**
   A feed is a stretch of what was captured that ends where the frames still buffered begin, and
   then silence.
   */
  ghost predicate IsNext(captured: seq<Sample>, consumed: nat, after: State, feed: seq<Sample>, rate: nat) {
    var n := after.consumed - consumed;
    var end := |captured| - |after.contents|;
    && 0 <= n <= |feed| && |feed| == FramesPer10ms(rate) && n <= end <= |captured|
    && feed[..n] == captured[end - n..end] && feed[n..] == Silence(|feed| - n)
  }

  lemma FeedIsNext(s: State, rate: nat, now: Time)
    requires Inv(s, rate) && TickOutcome(s, rate, now, true).Delivered?
    ensures IsNext(s.captured, s.consumed, Ticked(s, rate, now, true), TickOutcome(s, rate, now, true).feed, rate)
  {
    var t := Trimmed(s, rate);
    TrimKeeps(s, rate);
    TickFeeds(s, rate, now, true);
    StartedFeeds(t, rate, now);
    FeedFromContents(Started(t, now), rate);
  }

  lemma FeedFromContents(t: State, rate: nat)
    requires Inv(t, rate)
    ensures IsNext(t.captured, t.consumed, Consumed(t, rate, true), Feed(t, rate), rate)
  {
    var n := ToCopy(t, rate);
    assert Feed(t, rate)[..n] == t.contents[..n];
    SuffixStretch(t.captured, Gone(t), n);
  }

  lemma SuffixStretch(captured: seq<Sample>, from: nat, n: nat)
    requires from + n <= |captured|
    ensures captured[from..][..n] == captured[from..from + n]
  {}

  // ---------------------------------------------------------------- latency and pace

  /** After a tick that is not skipped at most 200 ms are buffered, and the ring holds more than that. */
  lemma LatencyIsCapped(s: State, rate: nat, now: Time, attached: bool)
    requires rate >= 50 && !Ahead(s, rate, now)
    ensures |Ticked(s, rate, now, attached).contents| <= MaxBuffered(rate) < Capacity(rate)
  {}

  /** At most two packets ahead of the clock. */
  ghost predicate Paced(s: State, rate: nat, now: Time) {
    s.delivered <= Expected(s, rate, now) + 2 * FramesPer10ms(rate)
  }

  lemma ExpectedMonotone(s: State, rate: nat, now: Time, later: Time)
    requires now <= later
    ensures Expected(s, rate, now) <= Expected(s, rate, later)
  {
    if s.start.Some? && now > s.start.value {
      ProductMonotone(rate, now - s.start.value, later - s.start.value);
    }
  }

  lemma {:induction false} PushChangesNoClock(s: State, rate: nat, frames: seq<Sample>)
    requires rate >= 50
    ensures var t := Pushed(s, rate, frames);
            t.start == s.start && t.delivered == s.delivered && t.prebuffering == s.prebuffering
    decreases |frames|
  {
    if frames != [] {
      PushChangesNoClock(s, rate, frames[..|frames| - 1]);
    }
  }

  lemma TickIsPaced(s: State, rate: nat, now: Time, attached: bool)
    requires Inv(s, rate) && Paced(s, rate, now)
    ensures Paced(Ticked(s, rate, now, attached), rate, now)
  {}

  ghost predicate Clocked(events: seq<Event>) {
    forall i, j :: 0 <= i < j < |events| && events[i].Tick? && events[j].Tick? ==> events[i].now <= events[j].now
  }

  /** The clock reads at least this after the ticks of a run. */
  ghost predicate After(events: seq<Event>, now: Time) {
    forall i :: 0 <= i < |events| && events[i].Tick? ==> events[i].now <= now
  }

  /**
   Under a clock that does not go back, the frames delivered never exceed the frames due by more
   than two packets, at any time.
   */
  lemma {:induction false} NeverMoreThanTwoPacketsAhead(rate: nat, events: seq<Event>, now: Time)
    requires rate >= 50 && Clocked(events) && After(events, now)
    ensures Paced(Run(Initial(), rate, events), rate, now)
    decreases |events|
  {
    if events != [] {
      var earlier, last := events[..|events| - 1], events[|events| - 1];
      var before := Run(Initial(), rate, earlier);
      RunKeeps(Initial(), rate, earlier);
      if last.Tick? {
        assert forall i :: 0 <= i < |earlier| ==> earlier[i] == events[i];
        NeverMoreThanTwoPacketsAhead(rate, earlier, last.now);
        TickIsPaced(before, rate, last.now, last.attached);
        ExpectedMonotone(Ticked(before, rate, last.now, last.attached), rate, last.now, now);
      } else {
        NeverMoreThanTwoPacketsAhead(rate, earlier, now);
        PushChangesNoClock(before, rate, last.frames);
      }
    }
  }

  /** Nothing is delivered before 160 ms were collected. */
  lemma StartsFilled(s: State, rate: nat, now: Time)
    requires Inv(s, rate) && s.prebuffering && TickOutcome(s, rate, now, true).Delivered?
    ensures |s.contents| >= Target(rate) && Ticked(s, rate, now, true).start == Some(now)
  {}
}
