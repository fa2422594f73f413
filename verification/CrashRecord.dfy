/** The crash-loop record: failures pruned to a window, and the decision to trip. Times are in nanoseconds. */
module CrashRecord {
  import opened Wrappers

  const SECOND := 1_000_000_000
  const WINDOW := 600 * SECOND
  const THRESHOLD := 5
  const LEADER_LOST_THRESHOLD := 2 * THRESHOLD

  datatype Origin = Crashed | BringUp | LeaderLost

  datatype Failure = Failure(at: int, origin: Origin, component: string, permanent: bool)

  datatype Record = Record(failures: seq<Failure>, trippedAt: Option<int>)

  const EMPTY := Record([], None)

  /** Inside the window ending at now; a failure dated in the future is. */
  predicate Within(f: Failure, now: int) {
    f.at >= now - WINDOW
  }

  function Pruned(fs: seq<Failure>, now: int): (r: seq<Failure>) {
    if fs == [] then [] else
      Pruned(fs[..|fs| - 1], now) + if Within(fs[|fs| - 1], now) then [fs[|fs| - 1]] else []
  }

  /** How many lease losses, or how many other failures, the window ending at now holds. */
  function Count(fs: seq<Failure>, now: int, lost: bool): (n: nat) {
    if fs == [] then 0 else
      var f := fs[|fs| - 1];
      Count(fs[..|fs| - 1], now, lost) + if Within(f, now) && (f.origin == LeaderLost <==> lost) then 1 else 0
  }

  /** What the last failure makes of all of fs: enough of its kind in the window, or permanent. */
  predicate Reaches(fs: seq<Failure>, f: Failure) {
    if f.origin == LeaderLost then Count(fs, f.at, true) >= LEADER_LOST_THRESHOLD
    else f.permanent || Count(fs, f.at, false) >= THRESHOLD
  }

  /** Record, RecordPermanent and RecordLeaderLost: append, prune, trip. */
  function Add(r: Record, f: Failure): (r': Record) {
    var fs := Pruned(r.failures + [f], f.at);
    Record(fs, if r.trippedAt.None? && Reaches(fs, f) then Some(f.at) else r.trippedAt)
  }

  /** One locked update: the record as loaded at a time, then the failure added. */
  function Update(r: Record, loadedAt: int, f: Failure): (r': Record) {
    Add(Record(Pruned(r.failures, loadedAt), r.trippedAt), f)
  }

  /** The prune loop. */
  method Prune(fs: seq<Failure>, now: int) returns (kept: seq<Failure>)
    ensures kept == Pruned(fs, now)
  {
    kept := [];
    for i := 0 to |fs|
      invariant kept == Pruned(fs[..i], now)
    {
      assert fs[..i + 1][..i] == fs[..i];
      if fs[i].at >= now - WINDOW {
        kept := kept + [fs[i]];
      }
    }
    assert fs[..|fs|] == fs;
  }

  /** The count loop. */
  method CountLoop(fs: seq<Failure>, now: int, lost: bool) returns (n: nat)
    ensures n == Count(fs, now, lost)
  {
    n := 0;
    for i := 0 to |fs|
      invariant n == Count(fs[..i], now, lost)
    {
      assert fs[..i + 1][..i] == fs[..i];
      if fs[i].at >= now - WINDOW && ((fs[i].origin == LeaderLost) == lost) {
        n := n + 1;
      }
    }
    assert fs[..|fs|] == fs;
  }

  /** Record, RecordPermanent and RecordLeaderLost as they run: append, prune, count, trip. It reports
      whether this very failure tripped the record. */
  method RecordFailure(r: Record, f: Failure) returns (r': Record, tripped: bool)
    ensures r' == Add(r, f)
    ensures tripped <==> r.trippedAt.None? && r'.trippedAt.Some?
  {
    var kept := Prune(r.failures + [f], f.at);
    var n := CountLoop(kept, f.at, f.origin == LeaderLost);
    var reached := if f.origin == LeaderLost then n >= LEADER_LOST_THRESHOLD else f.permanent || n >= THRESHOLD;
    tripped := r.trippedAt.None? && reached;
    r' := Record(kept, if tripped then Some(f.at) else r.trippedAt);
  }

  // ----- the pruned record and the whole history -----

  lemma {:induction false} PrunedTwice(fs: seq<Failure>, t: int, now: int)
    requires t <= now
    ensures Pruned(Pruned(fs, t), now) == Pruned(fs, now)
  {
    if fs != [] {
      var n := |fs| - 1;
      PrunedTwice(fs[..n], t, now);
      PrunedAppend(Pruned(fs[..n], t), fs[n], now);
      assert Pruned(fs[..n], t) + [] == Pruned(fs[..n], t);
    }
  }

  lemma PrunedAppend(fs: seq<Failure>, f: Failure, now: int)
    ensures Pruned(fs + [f], now) == Pruned(fs, now) + if Within(f, now) then [f] else []
  {
    assert (fs + [f])[..|fs|] == fs;
  }

  /** Pruning to a window does not change what the window counts. */
  lemma {:induction false} CountOfPruned(fs: seq<Failure>, now: int, lost: bool)
    ensures Count(Pruned(fs, now), now, lost) == Count(fs, now, lost)
  {
    if fs != [] {
      var n := |fs| - 1;
      CountOfPruned(fs[..n], now, lost);
      var p := Pruned(fs[..n], now);
      assert (p + [fs[n]])[..|p|] == p;
      assert p + [] == p;
    }
  }

  /** One update in a history: when the record was loaded, and the failure added. */
  datatype Event = Event(loadedAt: int, failure: Failure)

  function Failures(h: seq<Event>): (fs: seq<Failure>) {
    if h == [] then [] else Failures(h[..|h| - 1]) + [h[|h| - 1].failure]
  }

  /** The record the updates leave on disk. */
  function Replay(h: seq<Event>): (r: Record) {
    if h == [] then EMPTY else
      Update(Replay(h[..|h| - 1]), h[|h| - 1].loadedAt, h[|h| - 1].failure)
  }

  lemma NothingReplayed()
    ensures Replay([]) == EMPTY
  {
  }

  /** The first event at which the whole history, nothing pruned, holds enough to trip. */
  ghost function FirstTrip(h: seq<Event>): (t: Option<int>) {
    if h == [] then None else
      var before, f := FirstTrip(h[..|h| - 1]), h[|h| - 1].failure;
      if before.Some? then before
      else if Reaches(Failures(h), f) then Some(f.at)
      else None
  }

  /** Failure i was inside the window at every load and every update after its own. */
  predicate Stayed(h: seq<Event>, i: nat)
    requires i < |h|
  {
    forall j :: i < j < |h| ==> Within(h[i].failure, h[j].loadedAt) && Within(h[i].failure, h[j].failure.at)
  }

  /** The failures that stayed, among the first k, in order. */
  function StayedOf(h: seq<Event>, k: nat): (fs: seq<Failure>)
    requires k <= |h|
  {
    if k == 0 then [] else StayedOf(h, k - 1) + if Stayed(h, k - 1) then [h[k - 1].failure] else []
  }

  /** One more event prunes what it does not cover, at its load and at its update. */
  lemma {:induction false} StayedPruned(h: seq<Event>, e: Event, k: nat)
    requires k <= |h|
    ensures StayedOf(h + [e], k) == Pruned(Pruned(StayedOf(h, k), e.loadedAt), e.failure.at)
  {
    hide Stayed, Within, Pruned;
    if k == 0 {
      NothingPruned(e.loadedAt);
      NothingPruned(e.failure.at);
    } else {
      StayedPruned(h, e, k - 1);
      StayedStep(h, e, k - 1);
      var before, f := StayedOf(h, k - 1), h[k - 1].failure;
      if Stayed(h, k - 1) {
        PrunedAppend(before, f, e.loadedAt);
        if Within(f, e.loadedAt) {
          PrunedAppend(Pruned(before, e.loadedAt), f, e.failure.at);
        } else {
          assert Pruned(before, e.loadedAt) + [] == Pruned(before, e.loadedAt);
        }
      } else {
        assert before + [] == before;
      }
    }
  }

  lemma NothingPruned(now: int)
    ensures Pruned([], now) == []
  {
  }

  lemma StayedStep(h: seq<Event>, e: Event, i: nat)
    requires i < |h|
    ensures Stayed(h + [e], i) <==> Stayed(h, i) && Within(h[i].failure, e.loadedAt) && Within(h[i].failure, e.failure.at)
  {
    var longer := h + [e];
    assert longer[|h|] == e && forall j :: 0 <= j < |h| ==> longer[j] == h[j];
  }

  /** Whatever the clock does, the record holds exactly the failures that stayed. */
  lemma {:induction false} RecordHoldsTheStayed(h: seq<Event>)
    ensures Replay(h).failures == StayedOf(h, |h|)
  {
    if h != [] {
      var n := |h| - 1;
      var before, e := h[..n], h[n];
      RecordHoldsTheStayed(before);
      assert h == before + [e];
      StayedPruned(before, e, n);
      PrunedAppend(Pruned(StayedOf(before, n), e.loadedAt), e.failure, e.failure.at);
    }
  }

  /** Failure i belongs to the window ending at the last event. */
  predicate InLastWindow(h: seq<Event>, i: nat)
    requires i < |h|
  {
    Within(h[i].failure, h[|h| - 1].failure.at)
  }

  /** The failures that stayed are among those of the last window, and are all of them exactly when every
      one of the window has stayed. */
  lemma {:induction false} StayedWithinWindow(h: seq<Event>, k: nat)
    requires k <= |h| && h != []
    ensures var window := Pruned(Failures(h[..k]), h[|h| - 1].failure.at);
      && (StayedOf(h, k) == window <==> AllStayed(h, k))
      && |StayedOf(h, k)| <= |window|
      && (!AllStayed(h, k) ==> |StayedOf(h, k)| < |window|)
  {
    hide Stayed, Within, Pruned;
    if k == 0 {
      assert h[..0] == [];
      NothingPruned(h[|h| - 1].failure.at);
    } else {
      StayedWithinWindow(h, k - 1);
      var f, fs := h[k - 1].failure, Failures(h[..k - 1]);
      assert h[..k][..k - 1] == h[..k - 1];
      PrunedAppend(fs, f, h[|h| - 1].failure.at);
      StayedInWindow(h, k - 1);
      LastDiffers(StayedOf(h, k - 1), Pruned(fs, h[|h| - 1].failure.at), f);
      AllStayedStep(h, k);
    }
  }

  /** Every failure of the last window among the first k has stayed. */
  predicate AllStayed(h: seq<Event>, k: nat)
    requires k <= |h|
  {
    forall i :: 0 <= i < k && InLastWindow(h, i) ==> Stayed(h, i)
  }

  lemma AllStayedStep(h: seq<Event>, k: nat)
    requires 0 < k <= |h|
    ensures AllStayed(h, k) <==> AllStayed(h, k - 1) && (InLastWindow(h, k - 1) ==> Stayed(h, k - 1))
  {
    hide Stayed, InLastWindow;
  }

  lemma {:induction false} StayedCountsNoMore(h: seq<Event>, k: nat, lost: bool)
    requires k <= |h| && h != []
    ensures Count(StayedOf(h, k), h[|h| - 1].failure.at, lost) <= Count(Failures(h[..k]), h[|h| - 1].failure.at, lost)
  {
    hide Stayed;
    if k > 0 {
      StayedCountsNoMore(h, k - 1, lost);
      assert h[..k][..k - 1] == h[..k - 1];
      CountAppend(Failures(h[..k - 1]), h[k - 1].failure, h[|h| - 1].failure.at, lost);
      CountAppend(StayedOf(h, k - 1), h[k - 1].failure, h[|h| - 1].failure.at, lost);
      assert StayedOf(h, k - 1) + [] == StayedOf(h, k - 1);
    }
  }

  lemma StayedInWindow(h: seq<Event>, i: nat)
    requires i < |h|
    ensures Stayed(h, i) ==> InLastWindow(h, i)
  {
  }

  lemma CountAppend(fs: seq<Failure>, f: Failure, now: int, lost: bool)
    ensures Count(fs + [f], now, lost) == Count(fs, now, lost) + if Within(f, now) && (f.origin == LeaderLost <==> lost) then 1 else 0
  {
    assert (fs + [f])[..|fs|] == fs;
  }

  lemma LastDiffers(a: seq<Failure>, b: seq<Failure>, f: Failure)
    requires |a| <= |b|
    ensures a + [f] == b + [f] <==> a == b
    ensures a != b + [f] && a + [] == a && b + [] == b
  {
    if a + [f] == b + [f] {
      assert a == (a + [f])[..|a|] && b == (b + [f])[..|b|];
    }
  }

  /** So the record is the last window of the whole history if and only if every failure of that window has
      stayed: the clock never stepped so far forward, between it and now, that the window left it. */
  lemma RecordIsTheWindowIff(h: seq<Event>)
    requires h != []
    ensures Replay(h).failures == Pruned(Failures(h), h[|h| - 1].failure.at) <==>
            AllStayed(h, |h|)
  {
    hide Stayed, InLastWindow, Replay, Pruned, AllStayed;
    RecordHoldsTheStayed(h);
    StayedWithinWindow(h, |h|);
    assert h[..|h|] == h;
  }

  /** The failures of one kind that stayed, counted. */
  function StayedCount(h: seq<Event>, k: nat, lost: bool): (n: nat)
    requires k <= |h|
  {
    if k == 0 then 0 else
      StayedCount(h, k - 1, lost) + if Stayed(h, k - 1) && (h[k - 1].failure.origin == LeaderLost <==> lost) then 1 else 0
  }

  lemma {:induction false} StayedCounted(h: seq<Event>, k: nat, lost: bool)
    requires k <= |h| && h != []
    ensures Count(StayedOf(h, k), h[|h| - 1].failure.at, lost) == StayedCount(h, k, lost)
  {
    hide Stayed;
    if k > 0 {
      StayedCounted(h, k - 1, lost);
      StayedInWindow(h, k - 1);
      CountAppend(StayedOf(h, k - 1), h[k - 1].failure, h[|h| - 1].failure.at, lost);
      assert StayedOf(h, k - 1) + [] == StayedOf(h, k - 1);
    }
  }

  /** Enough failures of the last one's kind have stayed, or it is permanent. */
  predicate EnoughStayed(h: seq<Event>)
    requires h != []
  {
    var f := h[|h| - 1].failure;
    if f.origin == LeaderLost then StayedCount(h, |h|, true) >= LEADER_LOST_THRESHOLD
    else f.permanent || StayedCount(h, |h|, false) >= THRESHOLD
  }

  /** The record trips at an event exactly when it is still shut and enough has stayed, and never when the
      whole history would not. */
  lemma TripStep(h: seq<Event>)
    requires h != []
    ensures var before := Replay(h[..|h| - 1]).trippedAt;
      Replay(h).trippedAt == if before.Some? then before else if EnoughStayed(h) then Some(h[|h| - 1].failure.at) else None
    ensures EnoughStayed(h) ==> Reaches(Failures(h), h[|h| - 1].failure)
  {
    hide StayedOf, Count, Pruned, Stayed;
    RecordHoldsTheStayed(h);
    StayedCountsNoMore(h, |h|, true);
    StayedCountsNoMore(h, |h|, false);
    assert h[..|h|] == h;
    StayedCounted(h, |h|, true);
    StayedCounted(h, |h|, false);
  }

  /** The record never trips before the history. */
  lemma {:induction false} NeverTripsEarly(h: seq<Event>)
    ensures Replay(h).trippedAt.Some? ==> FirstTrip(h).Some?
  {
    hide Replay, EnoughStayed, Reaches, Failures;
    if h == [] {
      NothingReplayed();
    } else {
      NeverTripsEarly(h[..|h| - 1]);
      TripStep(h);
    }
  }

  /** The history trips at the last event of h and not before. */
  ghost predicate TripsNow(h: seq<Event>) {
    h != [] && FirstTrip(h[..|h| - 1]).None? && FirstTrip(h).Some?
  }

  /** It trips with the history, exactly: at the event at which the whole history first holds enough, the
      record does too if and only if enough of it has stayed. */
  lemma TripsWithHistoryIff(h: seq<Event>)
    requires TripsNow(h)
    ensures Replay(h).trippedAt == FirstTrip(h) <==> EnoughStayed(h)
    ensures !EnoughStayed(h) ==> Replay(h).trippedAt.None?
  {
    hide Replay, EnoughStayed, Reaches, Failures;
    NeverTripsEarly(h[..|h| - 1]);
    TripStep(h);
  }

  /** The record decides as the history at every point: both shut, or both open since the same failure. */
  ghost predicate DecidesAlike(h: seq<Event>) {
    forall m :: 0 <= m <= |h| ==> Replay(h[..m]).trippedAt == FirstTrip(h[..m])
  }

  /** So over a whole history it decides alike if and only if enough has stayed when the history trips. */
  lemma {:induction false} DecidesAlikeIff(h: seq<Event>)
    ensures DecidesAlike(h) <==> forall m :: 0 <= m <= |h| && TripsNow(h[..m]) ==> EnoughStayed(h[..m])
  {
    hide Replay, FirstTrip, EnoughStayed;
    forall m | 0 <= m <= |h| && TripsNow(h[..m])
      ensures Replay(h[..m]).trippedAt == FirstTrip(h[..m]) <==> EnoughStayed(h[..m])
    {
      TripsWithHistoryIff(h[..m]);
    }
    if forall m :: 0 <= m <= |h| && TripsNow(h[..m]) ==> EnoughStayed(h[..m]) {
      forall m | 0 <= m <= |h| ensures Replay(h[..m]).trippedAt == FirstTrip(h[..m]) {
        AlikeUpTo(h, m);
      }
    }
  }

  lemma {:induction false} AlikeUpTo(h: seq<Event>, m: nat)
    requires m <= |h| && forall k :: 0 <= k <= |h| && TripsNow(h[..k]) ==> EnoughStayed(h[..k])
    ensures Replay(h[..m]).trippedAt == FirstTrip(h[..m])
  {
    hide Replay, EnoughStayed, Reaches, Failures;
    if m == 0 {
      assert h[..0] == [];
      NothingReplayed();
    } else {
      AlikeUpTo(h, m - 1);
      var now := h[..m];
      assert now[..|now| - 1] == h[..m - 1];
      TripStep(now);
      if TripsNow(now) {
        TripsWithHistoryIff(now);
      }
    }
  }

  // ----- a clock that never goes back -----

  /** The clock never goes back, within an update or between two. */
  ghost predicate Monotone(h: seq<Event>) {
    h != [] ==>
      var n := |h| - 1;
      Monotone(h[..n]) && h[n].loadedAt <= h[n].failure.at && (n > 0 ==> h[n - 1].failure.at <= h[n].loadedAt)
  }

  /** Then whatever is in the last window has stayed. */
  lemma {:induction false} MonotoneStays(h: seq<Event>, i: nat)
    requires Monotone(h) && i < |h| && InLastWindow(h, i)
    ensures Stayed(h, i)
  {
    forall j | i < j < |h| ensures h[j].loadedAt <= h[j].failure.at <= h[|h| - 1].failure.at {
      MonotoneAt(h, j);
    }
  }

  lemma {:induction false} MonotoneAt(h: seq<Event>, j: nat)
    requires Monotone(h) && j < |h|
    ensures h[j].loadedAt <= h[j].failure.at <= h[|h| - 1].failure.at
  {
    if j < |h| - 1 {
      MonotoneAt(h[..|h| - 1], j);
    }
  }

  lemma {:induction false} MonotonePrefix(h: seq<Event>, m: nat)
    requires Monotone(h) && m <= |h|
    ensures Monotone(h[..m])
  {
    if m < |h| {
      MonotonePrefix(h[..|h| - 1], m);
      assert h[..|h| - 1][..m] == h[..m];
    } else {
      assert h[..m] == h;
    }
  }

  /** With a clock that never goes back the pruned record decides as the whole history would: it holds
      exactly the failures of the last window, and trips at the first event the history would. */
  lemma {:induction false} PrunedRecordDecides(h: seq<Event>)
    requires Monotone(h)
    ensures h != [] ==> Replay(h).failures == Pruned(Failures(h), h[|h| - 1].failure.at)
    ensures DecidesAlike(h) && Replay(h).trippedAt == FirstTrip(h)
  {
    hide Replay, FirstTrip, EnoughStayed, Stayed, InLastWindow, Monotone;
    forall m | 0 <= m <= |h| && TripsNow(h[..m]) ensures EnoughStayed(h[..m]) {
      MonotonePrefix(h, m);
      MonotoneEnough(h[..m]);
    }
    DecidesAlikeIff(h);
    assert h[..|h|] == h;
    if h != [] {
      forall i | 0 <= i < |h| && InLastWindow(h, i) ensures Stayed(h, i) {
        MonotoneStays(h, i);
      }
      RecordIsTheWindowIff(h);
    }
  }

  lemma MonotoneEnough(h: seq<Event>)
    requires Monotone(h) && TripsNow(h)
    ensures EnoughStayed(h)
  {
    hide Replay, Stayed, InLastWindow, Monotone, StayedCount, StayedOf, Pruned, Count, Failures;
    forall i | 0 <= i < |h| && InLastWindow(h, i) ensures Stayed(h, i) {
      MonotoneStays(h, i);
    }
    StayedWithinWindow(h, |h|);
    assert h[..|h|] == h;
    var now := h[|h| - 1].failure.at;
    CountOfPruned(Failures(h), now, true);
    CountOfPruned(Failures(h), now, false);
    StayedCounted(h, |h|, true);
    StayedCounted(h, |h|, false);
  }

  // ----- a clock that goes back -----

  lemma {:induction false} AllWithin(fs: seq<Failure>, now: int, lost: bool)
    requires forall i :: 0 <= i < |fs| ==> Within(fs[i], now) && (fs[i].origin == LeaderLost <==> lost)
    ensures Pruned(fs, now) == fs && Count(fs, now, lost) == |fs|
  {
    if fs != [] {
      AllWithin(fs[..|fs| - 1], now, lost);
      assert fs == fs[..|fs| - 1] + [fs[|fs| - 1]];
    }
  }

  lemma {:induction false} NoneWithin(fs: seq<Failure>, now: int)
    requires forall i :: 0 <= i < |fs| ==> !Within(fs[i], now)
    ensures Pruned(fs, now) == []
  {
    if fs != [] {
      NoneWithin(fs[..|fs| - 1], now);
    }
  }

  /** Every failure of the history is inside the last window, not permanent, and a lease loss or not as told. */
  ghost predicate OneWindow(h: seq<Event>, lost: bool) {
    forall i :: 0 <= i < |h| ==>
      Within(h[i].failure, h[|h| - 1].failure.at) && !h[i].failure.permanent && (h[i].failure.origin == LeaderLost <==> lost)
  }

  /** Inside one window of ten minutes crashes and failed bring-ups trip the record at the fifth and not before,
      and lease losses at the tenth and not before: neither counts towards the other. */
  lemma LoopTripsAtTheFifth(h: seq<Event>, lost: bool)
    requires Monotone(h) && OneWindow(h, lost)
    ensures Replay(h).trippedAt.Some? <==> |h| >= if lost then 10 else 5
    ensures WINDOW == 10 * 60 * SECOND
  {
    PrunedRecordDecides(h);
    FirstTripAtTheFifth(h, lost);
  }

  lemma {:induction false} FirstTripAtTheFifth(h: seq<Event>, lost: bool)
    requires Monotone(h) && OneWindow(h, lost)
    ensures FirstTrip(h).Some? <==> |h| >= if lost then LEADER_LOST_THRESHOLD else THRESHOLD
  {
    hide Count, Failures;
    if h != [] {
      var n := |h| - 1;
      FirstTripAtTheFifth(h[..n], lost);
      FailuresAre(h);
      AllWithin(Failures(h), h[n].failure.at, lost);
    }
  }

  /** A permanent failure trips the record on its own. */
  lemma PermanentTripsAlone(h: seq<Event>)
    requires h != [] && h[|h| - 1].failure.permanent && h[|h| - 1].failure.origin != LeaderLost
    ensures Replay(h).trippedAt.Some?
  {
    TripStep(h);
  }

  function FailedStart(at: int): Failure {
    Failure(at, BringUp, "agent", false)
  }

  function Lap(at: int): Event {
    Event(at, FailedStart(at))
  }

  /** Four failures, one more after the window has passed, and one with the clock set back in between: the
      whole history has six in the window then ending, the record only the last two. */
  const CLOCK_SET_BACK := [Lap(0), Lap(0), Lap(0), Lap(0), Lap(660 * SECOND), Lap(300 * SECOND)]

  lemma LapCounts(r: Record, h: seq<Event>, at: int)
    requires r == Replay(h) && r.trippedAt.None? && |Pruned(r.failures, at)| < THRESHOLD - 1
    requires forall i :: 0 <= i < |Pruned(r.failures, at)| ==> Within(Pruned(r.failures, at)[i], at) && Pruned(r.failures, at)[i].origin == BringUp
    ensures Replay(h + [Lap(at)]) == Record(Pruned(r.failures, at) + [FailedStart(at)], None)
  {
    assert (h + [Lap(at)])[..|h|] == h;
    AllWithin(Pruned(r.failures, at) + [FailedStart(at)], at, false);
  }

  /** Up to four failures at once are all in the record. */
  lemma {:induction false} Laps(n: nat)
    requires n < THRESHOLD
    ensures Replay(seq(n, _ => Lap(0))) == Record(seq(n, _ => FailedStart(0)), None)
  {
    hide Replay, Pruned;
    if n == 0 {
      NothingReplayed();
      assert seq(n, _ => Lap(0)) == [] && seq(n, _ => FailedStart(0)) == [];
    } else {
      var h, fs := seq(n - 1, _ => Lap(0)), seq(n - 1, _ => FailedStart(0));
      Laps(n - 1);
      AllWithin(fs, 0, false);
      LapCounts(Record(fs, None), h, 0);
      assert seq(n, _ => Lap(0)) == h + [Lap(0)] && seq(n, _ => FailedStart(0)) == fs + [FailedStart(0)];
    }
  }

  /** So there the record stays shut where the whole history would trip. */
  lemma ClockSetBackHidesALoop()
    ensures Replay(CLOCK_SET_BACK).trippedAt.None? && FirstTrip(CLOCK_SET_BACK).Some?
  {
    hide Replay, Pruned, Count, Failures;
    var h, late, back := CLOCK_SET_BACK, 660 * SECOND, 300 * SECOND;
    Laps(4);
    assert h[..4] == seq(4, _ => Lap(0));
    NoneWithin(Replay(h[..4]).failures, late);
    LapCounts(Replay(h[..4]), h[..4], late);
    assert h[..4] + [Lap(late)] == h[..5];
    assert Replay(h[..5]).failures == [FailedStart(late)];
    AllWithin([FailedStart(late)], back, false);
    LapCounts(Replay(h[..5]), h[..5], back);
    assert h[..5] + [Lap(back)] == h;
    FailuresAre(h);
    AllWithin(Failures(h), back, false);
  }

  lemma {:induction false} FailuresAre(h: seq<Event>)
    ensures |Failures(h)| == |h| && forall i :: 0 <= i < |h| ==> Failures(h)[i] == h[i].failure
  {
    if h != [] {
      FailuresAre(h[..|h| - 1]);
    }
  }
}
