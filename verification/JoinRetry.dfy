/** awaitJoin: one agent start's join, tried again while the control plane limits or cannot decide it. Times
    are in nanoseconds. */
module JoinRetry {
  import opened Wrappers

  const SECOND := 1_000_000_000
  const GRACE := 30 * SECOND
  const FALLBACK_WAIT := 5 * SECOND

  /** What one attempt comes to: a verdict, success or failure, or a request to come back later. */
  datatype Answer = Verdict(text: string) | Limited(retryAfter: int) | Unavailable(retryAfter: int)

  /** What the world does to a start: the answer to each attempt, how long the attempt takes, how late the
      timer after it fires, and when, if ever, the daemon is asked to stop. */
  datatype World = World(answer: nat -> Answer, took: nat -> nat, late: nat -> nat, stopAt: Option<int>)

  /** One wait and the attempt after it: the time left when it was decided, the wait, and the start. */
  datatype Retry = Retry(left: int, wait: int, start: int)

  datatype Ending = Settled(answer: Answer) | Stopped | GaveUp(attempts: nat, last: Answer, wait: int)

  /** Every retry of a start, how it ended and when. */
  datatype Trace = Trace(retries: seq<Retry>, ending: Ending, at: int)

  predicate StopAsked(w: World, now: int) {
    w.stopAt.Some? && w.stopAt.value <= now
  }

  /** The wait the server asked for, or the fallback when it named none. */
  function WaitFor(a: Answer): (wait: int)
    requires !a.Verdict?
    ensures wait > 0
  {
    if a.retryAfter <= 0 then FALLBACK_WAIT else a.retryAfter
  }

  /** The start from its n-th attempt (the first is 0), begun at now. */
  function Await(w: World, n: nat, now: int, deadline: int): (t: Trace)
    decreases if now < deadline then deadline - now else 0
  {
    var over := now + w.took(n);
    var a := w.answer(n);
    if a.Verdict? then Trace([], Settled(a), over)
    else if StopAsked(w, over) then Trace([], Stopped, over)
    else
      var wait, left := WaitFor(a), deadline - over;
      if left <= 0 || wait > left then Trace([], GaveUp(n + 1, a, wait), over)
      else
        var woken := over + wait + w.late(n);
        if StopAsked(w, woken) then Trace([], Stopped, w.stopAt.value)
        else
          var rest := Await(w, n + 1, woken, deadline);
          Trace([Retry(left, wait, woken)] + rest.retries, rest.ending, rest.at)
  }

  /** awaitJoin's loop. */
  method AwaitJoin(w: World, now: int) returns (ending: Ending, at: int)
    ensures ending == Await(w, 0, now, now + 30 * SECOND).ending
    ensures at == Await(w, 0, now, now + 30 * SECOND).at
  {
    var n, clock, deadline := 0, now, now + GRACE;
    ghost var whole := Await(w, 0, now, deadline);
    while true
      invariant Await(w, n, clock, deadline).ending == whole.ending && Await(w, n, clock, deadline).at == whole.at
      decreases if clock < deadline then deadline - clock else 0
    {
      var a := w.answer(n);
      clock := clock + w.took(n);
      if a.Verdict? {
        return Settled(a), clock;
      }
      if StopAsked(w, clock) {
        return Stopped, clock;
      }
      var wait, left := WaitFor(a), deadline - clock;
      if left <= 0 || wait > left {
        return GaveUp(n + 1, a, wait), clock;
      }
      clock := clock + wait + w.late(n);
      if StopAsked(w, clock) {
        return Stopped, w.stopAt.value;
      }
      n := n + 1;
    }
  }

  function TotalWait(retries: seq<Retry>): (sum: int) {
    if retries == [] then 0 else retries[0].wait + TotalWait(retries[1..])
  }

  /** Whatever Retry-After values arrive, the waits add up to no more than the grace. */
  lemma {:induction false} WaitsFitTheGrace(w: World, n: nat, now: int, deadline: int)
    requires now <= deadline
    ensures TotalWait(Await(w, n, now, deadline).retries) <= deadline - now
    decreases deadline - now
  {
    var t := Await(w, n, now, deadline);
    if t.retries != [] {
      var woken := t.retries[0].start;
      assert t.retries[1..] == Await(w, n + 1, woken, deadline).retries;
      if woken <= deadline {
        WaitsFitTheGrace(w, n + 1, woken, deadline);
      } else {
        NoRetryPast(w, n + 1, woken, deadline);
      }
    }
  }

  /** An attempt that starts at or past the deadline is the last. */
  lemma NoRetryPast(w: World, n: nat, now: int, deadline: int)
    requires deadline <= now
    ensures Await(w, n, now, deadline).retries == []
  {
  }

  /** The first verdict is returned unchanged, and the start ends in it only if every answer before it
      asked to come back. */
  lemma {:induction false} FirstVerdictWins(w: World, n: nat, now: int, deadline: int)
    ensures var t := Await(w, n, now, deadline);
      && (forall k: nat :: n <= k < n + |t.retries| ==> !w.answer(k).Verdict?)
      && (t.ending.Settled? <==> w.answer(n + |t.retries|).Verdict?)
      && (t.ending.Settled? ==> t.ending.answer == w.answer(n + |t.retries|))
    decreases if now < deadline then deadline - now else 0
  {
    var t := Await(w, n, now, deadline);
    if t.retries != [] {
      var woken := t.retries[0].start;
      FirstVerdictWins(w, n + 1, woken, deadline);
    }
  }

  /** A retry starts after the deadline exactly when its timer was later than the time its wait left. */
  lemma {:induction false} RetryIsLateIffTimerWas(w: World, n: nat, now: int, deadline: int, i: nat)
    requires i < |Await(w, n, now, deadline).retries|
    ensures var r := Await(w, n, now, deadline).retries[i];
      && 0 < r.wait <= r.left
      && (r.start > deadline <==> w.late(n + i) > r.left - r.wait)
    decreases i
  {
    var t := Await(w, n, now, deadline);
    if i > 0 {
      RetryIsLateIffTimerWas(w, n + 1, t.retries[0].start, deadline, i - 1);
    }
  }

  /** With punctual timers no retry starts after the deadline. */
  lemma PunctualRetriesFit(w: World, now: int, i: nat)
    requires i < |Await(w, 0, now, now + GRACE).retries| && w.late(i) == 0
    ensures Await(w, 0, now, now + GRACE).retries[i].start <= now + GRACE
  {
    RetryIsLateIffTimerWas(w, 0, now, now + GRACE, i);
  }

  /** A late timer does carry one past it: asked to wait the whole grace, woken a nanosecond late. */
  lemma LateTimerOverruns(now: int)
    ensures var w := World(n => Limited(GRACE), n => 0, n => 1, None);
      Await(w, 0, now, now + GRACE).retries == [Retry(GRACE, GRACE, now + GRACE + 1)]
  {
    var w := World(n => Limited(GRACE), n => 0, n => 1, None);
    NoRetryPast(w, 1, now + GRACE + 1, now + GRACE);
  }

  /** A start ends no later than the grace plus its last attempt and its timers' lateness allow: without a
      late timer, an attempt is under way at the deadline or the start is over. */
  lemma {:induction false} StartEnds(w: World, n: nat, now: int, deadline: int)
    requires forall i :: w.late(i) == 0
    ensures var t := Await(w, n, now, deadline);
      now <= deadline ==> t.at <= deadline + w.took(n + |t.retries|)
    decreases if now < deadline then deadline - now else 0
  {
    var t := Await(w, n, now, deadline);
    if t.retries != [] {
      StartEnds(w, n + 1, t.retries[0].start, deadline);
    }
  }

  // ----- how a start ends -----

  /** The time the attempt after the last retry began. */
  function LastStart(t: Trace, now: int): int {
    if t.retries == [] then now else t.retries[|t.retries| - 1].start
  }

  /** What the server asked for, or five seconds when it asked for nothing. */
  function Asked(a: Answer): int
    requires !a.Verdict?
  {
    if a.retryAfter > 0 then a.retryAfter else 5 * SECOND
  }

  /** The three endings, each pinned. A verdict ends the start when its attempt is over. Giving up is after the
      last attempt asked to come back, counts every attempt, names the wait asked for, and happens only when
      that wait does not fit in what is left of the grace. Stopping is only when the stop was asked for, during
      the attempt or during a wait that did fit. */
  lemma {:induction false} EndingsPinned(w: World, n: nat, now: int, deadline: int)
    ensures var t := Await(w, n, now, deadline);
      var a, over := w.answer(n + |t.retries|), LastStart(t, now) + w.took(n + |t.retries|);
      match t.ending
      case Settled(v) => a.Verdict? && v == a && t.at == over
      case GaveUp(attempts, last, wait) =>
        && attempts == n + |t.retries| + 1 && !a.Verdict? && last == a && wait == Asked(a)
        && t.at == over && !StopAsked(w, over) && (over >= deadline || over + wait > deadline)
      case Stopped =>
        && !a.Verdict? && StopAsked(w, t.at)
        && (t.at == over || (t.at > over && over + Asked(a) <= deadline && t.at <= over + Asked(a) + w.late(n + |t.retries|)))
    decreases if now < deadline then deadline - now else 0
  {
    var t := Await(w, n, now, deadline);
    if t.retries != [] {
      EndingsPinned(w, n + 1, t.retries[0].start, deadline);
      var rest := Await(w, n + 1, t.retries[0].start, deadline);
      assert LastStart(t, now) == LastStart(rest, t.retries[0].start);
    }
  }

  /** Every retry waits what its answer asked for and starts when that wait is over, and no sooner or later than
      its timer makes it. */
  lemma {:induction false} RetriesPinned(w: World, n: nat, now: int, deadline: int, i: nat)
    requires i < |Await(w, n, now, deadline).retries|
    ensures var t := Await(w, n, now, deadline);
      var over := (if i == 0 then now else t.retries[i - 1].start) + w.took(n + i);
      && !w.answer(n + i).Verdict? && t.retries[i].wait == Asked(w.answer(n + i))
      && t.retries[i].left == deadline - over
      && t.retries[i].start == over + t.retries[i].wait + w.late(n + i)
    decreases i
  {
    var t := Await(w, n, now, deadline);
    if i > 0 {
      RetriesPinned(w, n + 1, t.retries[0].start, deadline, i - 1);
    }
  }

  /** So a start keeps trying while the grace lasts: asked every time to wait a second it reaches the verdict
      that comes within thirty. */
  lemma {:induction false} PatientStartSettles(w: World, n: nat, now: int, deadline: int, k: nat)
    requires (forall i: nat :: w.took(i) == 0 && w.late(i) == 0) && w.stopAt == None
    requires w.answer(n + k).Verdict? && forall i: nat :: n <= i < n + k ==> w.answer(i) == Limited(SECOND)
    requires now + k * SECOND <= deadline
    ensures Await(w, n, now, deadline).ending == Settled(w.answer(n + k)) && |Await(w, n, now, deadline).retries| == k
    decreases k
  {
    if k > 0 {
      PatientStartSettles(w, n + 1, now + SECOND, deadline, k - 1);
    }
  }
}
