/**
 The jitter buffer told from its fields, with the frame counts of the rate written out: what a packet leaves in the
 ring, what a tick plays, and that what is played is everything that was captured but for what the books say.
 */
module JitterExact {
  import opened Common
  import opened Jitter

  // ---------------------------------------------------------------- packets

  /** Half a second at 25 times the frames of 20 ms. */
  function HalfSecond(rate: nat): nat {
    25 * (rate / 50)
  }

  function LastOf(s: seq<Sample>, n: nat): seq<Sample> {
    if |s| <= n then s else s[|s| - n..]
  }

  lemma LastOfMore(s: seq<Sample>, n: nat, x: Sample)
    requires n >= 1
    ensures LastOf(LastOf(s, n) + [x], n) == LastOf(s + [x], n)
  {}

  /** The ring after all of these frames were written behind what was there. */
  ghost predicate Filled(s: State, s': State, rate: nat, frames: seq<Sample>) {
    var total := |s.contents| + |frames|;
    && s'.contents == LastOf(s.contents + frames, HalfSecond(rate))
    && s'.captured == s.captured + frames
    && s'.overwritten == s.overwritten + (if total <= HalfSecond(rate) then 0 else total - HalfSecond(rate))
    && s' == State(s'.contents, s.prebuffering, s.start, s.delivered, s'.captured, s.consumed, s.unheard, s'.overwritten,
                   s.trimmed)
  }

  lemma FilledNone(s: State, rate: nat)
    requires |s.contents| <= HalfSecond(rate)
    ensures Filled(s, s, rate, [])
  {
    assert s.contents + [] == s.contents && s.captured + [] == s.captured;
  }

  lemma FilledMore(s: State, t: State, rate: nat, frames: seq<Sample>, x: Sample)
    requires rate >= 50 && |s.contents| <= HalfSecond(rate) && Filled(s, t, rate, frames)
    ensures Filled(s, PushedOne(t, rate, x), rate, frames + [x])
  {
    Associative(s.contents, frames, [x]);
    Associative(s.captured, frames, [x]);
    LastOfMore(s.contents + frames, HalfSecond(rate), x);
  }

  /** A packet leaves the last half second of what was buffered and captured; what no longer fits is overwritten. */
  lemma {:induction false} PushedExactly(s: State, rate: nat, frames: seq<Sample>)
    requires rate >= 50 && |s.contents| <= HalfSecond(rate)
    ensures Filled(s, Pushed(s, rate, frames), rate, frames)
    decreases |frames|
  {
    if frames == [] {
      FilledNone(s, rate);
    } else {
      var n := |frames| - 1;
      PushedExactly(s, rate, frames[..n]);
      FilledMore(s, Pushed(s, rate, frames[..n]), rate, frames[..n], frames[n]);
      assert frames[..n] + [frames[n]] == frames;
    }
  }

  // ---------------------------------------------------------------- ticks

  /** The frames due since the start of playing. */
  function Due(s: State, rate: nat, now: Time): nat {
    if s.start.Some? && now > s.start.value then (now - s.start.value) * rate / 1_000_000_000 else 0
  }

  /** Playing has started, and more is delivered than what is due and 10 ms. */
  predicate Early(s: State, rate: nat, now: Time) {
    s.start.Some? && s.delivered > Due(s, rate, now) + rate / 100
  }

  /** Playing has not started, and less than 160 ms are buffered. */
  predicate TooFew(s: State, rate: nat) {
    s.prebuffering && |s.contents| < 16 * (rate / 100)
  }

  /** A tick that is early, or comes before 160 ms are buffered, changes nothing. */
  lemma WaitsExactly(s: State, rate: nat, now: Time, attached: bool)
    ensures TickOutcome(s, rate, now, attached) == DriftSkip <==> Early(s, rate, now)
    ensures TickOutcome(s, rate, now, attached) == Buffering <==> !Early(s, rate, now) && TooFew(s, rate)
    ensures Early(s, rate, now) || TooFew(s, rate) ==> Ticked(s, rate, now, attached) == s
  {}

  /**
   Any other tick takes the next 10 ms of the last 200 ms that are buffered, or what is there of them, and hands
   them to the audio source with silence behind; when there is no source they are lost.
   */
  lemma PlaysExactly(s: State, rate: nat, now: Time, attached: bool)
    requires !Early(s, rate, now) && !TooFew(s, rate)
    ensures var ten, kept := rate / 100, LastOf(s.contents, 20 * (rate / 100));
            var n := if |kept| < ten then |kept| else ten;
            && Ticked(s, rate, now, attached)
               == State(kept[n..], false, if s.prebuffering then Some(now) else s.start,
                        s.delivered + (if attached then ten else 0), s.captured,
                        s.consumed + (if attached then n else 0), s.unheard + (if attached then 0 else n),
                        s.overwritten, s.trimmed + (|s.contents| - |kept|))
            && TickOutcome(s, rate, now, attached)
               == if attached then Delivered(kept[..n] + Silence(ten - n)) else Unheard
  {
    var t := Trimmed(s, rate);
    assert t.contents == LastOf(s.contents, 20 * (rate / 100));
    if !s.prebuffering {
      assert Started(t, now) == t;
    }
  }

  // ---------------------------------------------------------------- everything is played

  /** What was heard without the silence. */
  function Voiced(heard: seq<Sample>, origins: seq<Option<nat>>): seq<Sample>
    requires |heard| == |origins|
  {
    if heard == [] then []
    else
      var n := |heard| - 1;
      Voiced(heard[..n], origins[..n]) + (if origins[n].Some? then [heard[n]] else [])
  }

  lemma {:induction false} VoicedAppend(a: seq<Sample>, ao: seq<Option<nat>>, b: seq<Sample>, bo: seq<Option<nat>>)
    requires |a| == |ao| && |b| == |bo|
    ensures Voiced(a + b, ao + bo) == Voiced(a, ao) + Voiced(b, bo)
  {
    if b == [] {
      assert a + b == a && ao + bo == ao;
    } else {
      var n := |b| - 1;
      assert (a + b)[..|a| + n] == a + b[..n] && (ao + bo)[..|a| + n] == ao + bo[..n];
      VoicedAppend(a, ao, b[..n], bo[..n]);
    }
  }

  lemma {:induction false} AllVoiced(heard: seq<Sample>, origins: seq<Option<nat>>)
    requires |heard| == |origins| && forall j :: 0 <= j < |origins| ==> origins[j].Some?
    ensures Voiced(heard, origins) == heard
  {
    if heard != [] {
      AllVoiced(heard[..|heard| - 1], origins[..|heard| - 1]);
    }
  }

  lemma {:induction false} NoneVoiced(heard: seq<Sample>, origins: seq<Option<nat>>)
    requires |heard| == |origins| && forall j :: 0 <= j < |origins| ==> origins[j].None?
    ensures Voiced(heard, origins) == []
  {
    if heard != [] {
      NoneVoiced(heard[..|heard| - 1], origins[..|heard| - 1]);
    }
  }

  lemma FeedVoiced(t: State, rate: nat)
    ensures Voiced(Feed(t, rate), FeedOrigins(t, rate)) == t.contents[..ToCopy(t, rate)]
  {
    var n, feed, origins := ToCopy(t, rate), Feed(t, rate), FeedOrigins(t, rate);
    AllVoiced(feed[..n], origins[..n]);
    NoneVoiced(feed[n..], origins[n..]);
    VoicedAppend(feed[..n], origins[..n], feed[n..], origins[n..]);
    assert feed[..n] + feed[n..] == feed && origins[..n] + origins[n..] == origins;
    assert feed[..n] == t.contents[..n];
  }

  /** Nothing was overwritten, trimmed or taken while there was no audio source. */
  predicate NothingLost(s: State) {
    s.unheard == 0 && s.overwritten == 0 && s.trimmed == 0
  }

  lemma TickLoses(s: State, rate: nat, now: Time, attached: bool)
    requires NothingLost(Ticked(s, rate, now, attached))
    ensures NothingLost(s) && (!Ahead(s, rate, now) ==> Trimmed(s, rate) == s)
  {}

  /** What was heard without the silence is the beginning of what was captured. */
  ghost predicate HeardAll(s: State, heard: seq<Sample>, origins: seq<Option<nat>>) {
    |heard| == |origins| && s.consumed <= |s.captured| && Voiced(heard, origins) == s.captured[..s.consumed]
  }

  lemma FeedHeard(s: State, rate: nat, heard: seq<Sample>, origins: seq<Option<nat>>)
    requires Inv(s, rate) && NothingLost(s) && HeardAll(s, heard, origins)
    ensures HeardAll(Consumed(s, rate, true), heard + Feed(s, rate), origins + FeedOrigins(s, rate))
  {
    var n := ToCopy(s, rate);
    FeedVoiced(s, rate);
    VoicedAppend(heard, origins, Feed(s, rate), FeedOrigins(s, rate));
    SuffixStretch(s.captured, s.consumed, n);
    assert s.captured[..s.consumed] + s.captured[s.consumed..s.consumed + n] == s.captured[..s.consumed + n];
  }

  lemma NothingHeard(heard: seq<Sample>, origins: seq<Option<nat>>)
    ensures heard + [] == heard && origins + [] == origins
  {}

  lemma TickHeardAll(s: State, rate: nat, now: Time, attached: bool, heard: seq<Sample>, origins: seq<Option<nat>>)
    requires Inv(s, rate) && HeardAll(s, heard, origins) && NothingLost(Ticked(s, rate, now, attached))
    ensures var outcome := TickOutcome(s, rate, now, attached);
            HeardAll(Ticked(s, rate, now, attached), heard + (if outcome.Delivered? then outcome.feed else []),
                     origins + TickOrigins(s, rate, now, attached))
  {
    TickLoses(s, rate, now, attached);
    NothingHeard(heard, origins);
    if !Ahead(s, rate, now) && !StillBuffering(s, rate) {
      TickFeeds(s, rate, now, attached);
      StartedFeeds(s, rate, now);
      if attached {
        FeedHeard(Started(s, now), rate, heard, origins);
      } else {
        assert ToCopy(Started(s, now), rate) == 0;
      }
    }
  }

  lemma PushHeardAll(s: State, rate: nat, frames: seq<Sample>, heard: seq<Sample>, origins: seq<Option<nat>>)
    requires rate >= 50 && Inv(s, rate) && HeardAll(s, heard, origins)
    requires NothingLost(Pushed(s, rate, frames))
    ensures NothingLost(s) && HeardAll(Pushed(s, rate, frames), heard, origins)
  {
    PushedExactly(s, rate, frames);
    assert (s.captured + frames)[..s.consumed] == s.captured[..s.consumed];
  }

  lemma PushLoses(s: State, rate: nat, frames: seq<Sample>)
    requires rate >= 50 && Inv(s, rate) && NothingLost(Pushed(s, rate, frames))
    ensures NothingLost(s)
  {
    PushedExactly(s, rate, frames);
  }

  lemma {:induction false} RunHeardAll(rate: nat, events: seq<Event>)
    requires rate >= 50 && NothingLost(Run(Initial(), rate, events))
    ensures HeardAll(Run(Initial(), rate, events), Heard(rate, events), Origins(rate, events))
  {
    if events != [] {
      var earlier, last := events[..|events| - 1], events[|events| - 1];
      var s := Run(Initial(), rate, earlier);
      RunKeeps(Initial(), rate, earlier);
      match last {
        case Capture(frames) =>
          PushLoses(s, rate, frames);
          RunHeardAll(rate, earlier);
          PushHeardAll(s, rate, frames, Heard(rate, earlier), Origins(rate, earlier));
          NothingHeard(Heard(rate, earlier), Origins(rate, earlier));
        case Tick(now, attached) =>
          TickLoses(s, rate, now, attached);
          RunHeardAll(rate, earlier);
          TickHeardAll(s, rate, now, attached, Heard(rate, earlier), Origins(rate, earlier));
      }
    }
  }

  /**
   As long as nothing is lost, what was heard without the silence is what was captured, from its beginning and but
   for what is still buffered.
   */
  lemma EverythingIsHeard(rate: nat, events: seq<Event>)
    requires rate >= 50 && NothingLost(Run(Initial(), rate, events))
    ensures var s := Run(Initial(), rate, events);
            && |s.contents| <= |Packets(events)| && |Heard(rate, events)| == |Origins(rate, events)|
            && Voiced(Heard(rate, events), Origins(rate, events)) == Packets(events)[..|Packets(events)| - |s.contents|]
  {
    NothingIsLostUnaccounted(rate, events);
    RunHeardAll(rate, events);
  }
}
