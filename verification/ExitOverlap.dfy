/** controlPlaneStopper: begin and finish, called in any order and any number of times, with the stage that
    precedes the stop, on a clock that never goes back. */
module ExitOverlap {
  import opened Wrappers

  type Outcome = string

  /** What the stop is built with. slack is how late a timer or a scheduled goroutine may be. */
  datatype Config = Config(waitBound: nat, slack: nat)

  /** The buffered done channel: never made, or made and holding at most one result. */
  datatype Channel = Nil | Made(buffer: Option<Outcome>)

  /** How a finish that waited ended: with the result it received, or by timing out. */
  datatype Answer = Received(result: Outcome) | TimedOut

  /** A goroutine of the stopper: the lane that runs the preceding stage and then the stop, on behalf of
      begin or inline in finish; or a call of finish waiting for it. first says whether the lane has a
      preceding stage, and over whether that stage has returned. An inline Stopped has returned its result. */
  datatype Proc =
    | Claimed(inline: bool, first: bool, bound: nat)
    | First(inline: bool, since: nat, bound: nat, over: bool)
    | Stopping(inline: bool)
    | Stopped(inline: bool, result: Outcome)
    | Awaiting(since: nat, bound: nat)
    | Finished(answer: Answer, since: nat, bound: nat, at: nat)

  /** One call of the stop: when, and the preceding stage's start, bound and whether it had returned. */
  datatype Stop = Stop(at: nat, first: Option<nat>, bound: nat, over: bool)

  datatype State = State(now: nat, first: bool, firstBound: nat, begun: bool, done: Channel,
                         procs: seq<Proc>, stops: seq<Stop>, firsts: nat)

  const INIT := State(0, false, 0, false, Nil, [], [], 0)

  datatype Action =
    | Tick(d: nat)
    | Precede(bound: nat)
    | CallBegin
    | CallFinish
    | RunFirst(p: nat)
    | FirstReturns(p: nat)
    | RunStop(p: nat)
    | StopReturns(p: nat, result: Outcome)
    | Receive(p: nat)
    | Expire(p: nat)

  /** When the goroutine's timer is due. */
  function Due(p: Proc): (t: Option<nat>) {
    match p
    case First(_, since, bound, _) => Some(since + bound)
    case Awaiting(since, bound) => Some(since + bound)
    case _ => None
  }

  /** A stage is registered before anything begins, as precede asks of its caller. */
  predicate Enabled(c: Config, s: State, a: Action) {
    match a
    case Tick(d) => forall i :: 0 <= i < |s.procs| && Due(s.procs[i]).Some? ==> s.now + d <= Due(s.procs[i]).value + c.slack
    case Precede(_) => !s.begun
    case CallBegin => true
    case CallFinish => true
    case RunFirst(p) => p < |s.procs| && s.procs[p].Claimed?
    case FirstReturns(p) => p < |s.procs| && s.procs[p].First? && !s.procs[p].over
    case RunStop(p) => p < |s.procs| && s.procs[p].First? && (s.procs[p].over || s.now >= s.procs[p].since + s.procs[p].bound)
    case StopReturns(p, _) =>
      && p < |s.procs| && s.procs[p].Stopping?
      && (s.procs[p].inline || s.done == Made(None))
    case Receive(p) => p < |s.procs| && s.procs[p].Awaiting? && s.done.Made? && s.done.buffer.Some?
    case Expire(p) => p < |s.procs| && s.procs[p].Awaiting? && s.now >= s.procs[p].since + s.procs[p].bound
  }

  function Set(s: State, p: nat, proc: Proc): (s': State)
    requires p < |s.procs|
  {
    s.(procs := s.procs[p := proc])
  }

  function Spawned(s: State, proc: Proc): (s': State) {
    s.(procs := s.procs + [proc])
  }

  function Do(c: Config, s: State, a: Action): (s': State)
    requires Enabled(c, s, a)
  {
    match a
    case Tick(d) => s.(now := s.now + d)
    case Precede(bound) => s.(first := true, firstBound := bound)
    case CallBegin =>
      if s.begun then s
      else Spawned(s.(begun := true, done := Made(None)), Claimed(false, s.first, s.firstBound))
    case CallFinish =>
      if s.begun then Spawned(s, Awaiting(s.now, c.waitBound + s.firstBound))
      else Spawned(s.(begun := true), Claimed(true, s.first, s.firstBound))
    case RunFirst(p) =>
      var lane := s.procs[p];
      if lane.first then Set(s, p, First(lane.inline, s.now, lane.bound, false)).(firsts := s.firsts + 1)
      else Set(s, p, Stopping(lane.inline)).(stops := s.stops + [Stop(s.now, None, 0, false)])
    case FirstReturns(p) => Set(s, p, s.procs[p].(over := true))
    case RunStop(p) =>
      var lane := s.procs[p];
      Set(s, p, Stopping(lane.inline)).(stops := s.stops + [Stop(s.now, Some(lane.since), lane.bound, lane.over)])
    case StopReturns(p, result) =>
      var ended := Set(s, p, Stopped(s.procs[p].inline, result));
      if s.procs[p].inline then ended else ended.(done := Made(Some(result)))
    case Receive(p) =>
      Set(s, p, Finished(Received(s.done.buffer.value), s.procs[p].since, s.procs[p].bound, s.now)).(done := Made(None))
    case Expire(p) => Set(s, p, Finished(TimedOut, s.procs[p].since, s.procs[p].bound, s.now))
  }

  ghost predicate Possible(c: Config, s: State, run: seq<Action>)
    decreases |run|
  {
    run == [] || (Enabled(c, s, run[0]) && Possible(c, Do(c, s, run[0]), run[1..]))
  }

  function Run(c: Config, s: State, run: seq<Action>): (s': State)
    requires Possible(c, s, run)
    decreases |run|
  {
    if run == [] then s else Run(c, Do(c, s, run[0]), run[1..])
  }

  // ----- what every run keeps -----

  predicate IsLane(p: Proc) {
    p.Claimed? || p.First? || p.Stopping? || p.Stopped?
  }

  predicate Heard(p: Proc) {
    p.Finished? && p.answer.Received?
  }

  /** The clock and a goroutine agree: no timer is overdue by more than the slack, and a finish that has
      returned did so within its bound, and not before it if it timed out. */
  predicate OnTime(c: Config, now: nat, p: Proc) {
    match p
    case First(_, since, bound, _) => since <= now <= since + bound + c.slack
    case Awaiting(since, bound) => since <= now <= since + bound + c.slack
    case Finished(answer, since, bound, at) =>
      since <= at <= since + bound + c.slack && at <= now && (answer.TimedOut? ==> at >= since + bound)
    case _ => true
  }

  /** The stop was not called before the preceding stage returned or its bound passed, nor long after. */
  predicate InTurn(c: Config, e: Stop) {
    e.first.Some? ==> (e.over || e.at >= e.first.value + e.bound) && e.first.value <= e.at <= e.first.value + e.bound + c.slack
  }

  /** The one lane has called the stop exactly if it is past the preceding stage. */
  predicate LaneCounts(s: State, lane: Proc) {
    && s.firsts == (if lane.Claimed? || (s.stops != [] && s.stops[0].first.None?) then 0 else 1)
    && |s.stops| == (if lane.Stopping? || lane.Stopped? then 1 else 0)
  }

  /** The channel carries the lane's one result to one finish. */
  ghost predicate OneResult(s: State, lane: Proc)
    requires IsLane(lane)
  {
    && (s.done.Nil? <==> lane.inline)
    && (s.done.Made? && s.done.buffer.Some? ==> lane.Stopped? && s.done.buffer.value == lane.result)
    && (forall i :: 0 <= i < |s.procs| && Heard(s.procs[i]) ==>
          lane.Stopped? && s.done == Made(None) && s.procs[i].answer.result == lane.result)
    && (forall i, j :: 0 <= i < j < |s.procs| && Heard(s.procs[i]) ==> !Heard(s.procs[j]))
  }

  /** The bound a goroutine waits under is the configured one: the preceding stage's for the lane, that
      plus the wait bound for a finish. */
  predicate RightBound(c: Config, s: State, p: Proc) {
    match p
    case Claimed(_, first, bound) => first == s.first && bound == s.firstBound
    case First(_, _, bound, _) => s.first && bound == s.firstBound
    case Awaiting(_, bound) => bound == c.waitBound + s.firstBound
    case Finished(_, _, bound, _) => bound == c.waitBound + s.firstBound
    case _ => true
  }

  /** A stop had the registered stage before it, under its registered bound, exactly if one was registered. */
  predicate RightStage(s: State, e: Stop) {
    (e.first.Some? <==> s.first) && (e.first.Some? ==> e.bound == s.firstBound)
  }

  /** One lane, at the head, and only waiting calls behind it. */
  predicate OneLane(s: State) {
    if s.begun then s.procs != [] && IsLane(s.procs[0]) && forall i :: 0 < i < |s.procs| ==> !IsLane(s.procs[i])
    else s.procs == [] && s.stops == [] && s.firsts == 0 && s.done.Nil?
  }

  ghost predicate Inv(c: Config, s: State) {
    && OneLane(s)
    && (forall i :: 0 <= i < |s.procs| ==> RightBound(c, s, s.procs[i]))
    && (forall i :: 0 <= i < |s.stops| ==> RightStage(s, s.stops[i]))
    && (forall i :: 0 <= i < |s.procs| ==> OnTime(c, s.now, s.procs[i]))
    && (forall i :: 0 <= i < |s.stops| ==> InTurn(c, s.stops[i]))
    && (s.begun ==> LaneCounts(s, s.procs[0]) && OneResult(s, s.procs[0]))
  }

  lemma StepOnTime(c: Config, s: State, a: Action)
    requires Inv(c, s) && Enabled(c, s, a)
    ensures var s' := Do(c, s, a);
      && (forall i :: 0 <= i < |s'.procs| ==> OnTime(c, s'.now, s'.procs[i]))
      && (forall i :: 0 <= i < |s'.stops| ==> InTurn(c, s'.stops[i]))
  {
    hide LaneCounts, OneResult, OneLane, RightBound;
    var s' := Do(c, s, a);
    forall i | 0 <= i < |s'.procs| ensures OnTime(c, s'.now, s'.procs[i]) {
      if i < |s.procs| {
        assert OnTime(c, s.now, s.procs[i]);
      }
    }
  }

  lemma StepBound(c: Config, s: State, a: Action, i: nat)
    requires Inv(c, s) && Enabled(c, s, a) && i < |Do(c, s, a).procs|
    ensures RightBound(c, Do(c, s, a), Do(c, s, a).procs[i])
  {
    hide OnTime, InTurn, OneResult, LaneCounts;
    if i < |s.procs| {
      assert RightBound(c, s, s.procs[i]);
    }
  }

  lemma StepStage(c: Config, s: State, a: Action)
    requires Inv(c, s) && Enabled(c, s, a)
    ensures forall i :: 0 <= i < |Do(c, s, a).stops| ==> RightStage(Do(c, s, a), Do(c, s, a).stops[i])
  {
    hide OnTime, InTurn, OneResult, LaneCounts;
    if a.RunFirst? || a.RunStop? {
      assert RightBound(c, s, s.procs[a.p]);
    }
  }

  lemma StepLane(c: Config, s: State, a: Action)
    requires Inv(c, s) && Enabled(c, s, a)
    ensures OneLane(Do(c, s, a)) && (Do(c, s, a).begun ==> LaneCounts(Do(c, s, a), Do(c, s, a).procs[0]))
  {
    hide OnTime, InTurn, OneResult, RightBound;
  }

  lemma StepResult(c: Config, s: State, a: Action)
    requires Inv(c, s) && Enabled(c, s, a) && OneLane(Do(c, s, a)) && Do(c, s, a).begun
    ensures OneResult(Do(c, s, a), Do(c, s, a).procs[0])
  {
    hide OnTime, InTurn, LaneCounts, RightBound;
  }

  /** Every step keeps the invariant. */
  lemma StepInv(c: Config, s: State, a: Action)
    requires Inv(c, s) && Enabled(c, s, a)
    ensures Inv(c, Do(c, s, a))
  {
    StepOnTime(c, s, a);
    StepStage(c, s, a);
    StepLane(c, s, a);
    forall i | 0 <= i < |Do(c, s, a).procs| ensures RightBound(c, Do(c, s, a), Do(c, s, a).procs[i]) {
      StepBound(c, s, a, i);
    }
    if Do(c, s, a).begun {
      StepResult(c, s, a);
    }
    hide Do, OnTime, InTurn, LaneCounts, OneResult, RightBound, RightStage;
  }

  lemma {:induction false} RunInv(c: Config, s: State, run: seq<Action>)
    requires Inv(c, s) && Possible(c, s, run)
    ensures Inv(c, Run(c, s, run))
    decreases |run|
  {
    hide Inv, Do, Enabled;
    if run != [] {
      StepInv(c, s, run[0]);
      RunInv(c, Do(c, s, run[0]), run[1..]);
    }
  }

  // ----- what a run's own actions say -----

  /** The bound of the last stage registered, if any. */
  function Registered(run: seq<Action>, before: Option<nat>): (b: Option<nat>)
    decreases |run|
  {
    if run == [] then before else Registered(run[1..], if run[0].Precede? then Some(run[0].bound) else before)
  }

  /** The time gone by. */
  function Elapsed(run: seq<Action>): (t: nat)
    decreases |run|
  {
    if run == [] then 0 else (if run[0].Tick? then run[0].d else 0) + Elapsed(run[1..])
  }

  /** What the stop returned, if it has. */
  function Reported(run: seq<Action>, before: Option<Outcome>): (r: Option<Outcome>)
    decreases |run|
  {
    if run == [] then before else Reported(run[1..], if run[0].StopReturns? then Some(run[0].result) else before)
  }

  /** Whether the first call of all is a finish, if there is a call. */
  function FinishFirst(run: seq<Action>, before: Option<bool>): (f: Option<bool>)
    decreases |run|
  {
    if before.Some? || run == [] then before
    else FinishFirst(run[1..], if run[0].CallBegin? then Some(false) else if run[0].CallFinish? then Some(true) else None)
  }

  function StageOf(s: State): Option<nat> {
    if s.first then Some(s.firstBound) else None
  }

  function ResultOf(s: State): Option<Outcome> {
    if s.procs != [] && s.procs[0].Stopped? then Some(s.procs[0].result) else None
  }

  function LaneOf(s: State): Option<bool> {
    if s.procs != [] && IsLane(s.procs[0]) then Some(s.procs[0].inline) else None
  }

  lemma StepTells(c: Config, s: State, a: Action)
    requires Inv(c, s) && Enabled(c, s, a) && (!s.first ==> s.firstBound == 0)
    ensures var s' := Do(c, s, a);
      && s'.now == s.now + (if a.Tick? then a.d else 0) && (!s'.first ==> s'.firstBound == 0)
      && StageOf(s') == (if a.Precede? then Some(a.bound) else StageOf(s))
      && ResultOf(s') == (if a.StopReturns? then Some(a.result) else ResultOf(s))
      && LaneOf(s') == (if LaneOf(s).Some? then LaneOf(s) else if a.CallBegin? then Some(false) else if a.CallFinish? then Some(true) else None)
  {
    hide OnTime, InTurn, LaneCounts, OneResult, RightBound, RightStage;
  }

  /** The state is what the actions say: the clock, the registered stage, the stop's result, and whether the
      stop runs for begin or inline in finish. */
  lemma {:induction false} RunTells(c: Config, s: State, run: seq<Action>)
    requires Inv(c, s) && Possible(c, s, run) && (!s.first ==> s.firstBound == 0)
    ensures var s' := Run(c, s, run);
      && s'.now == s.now + Elapsed(run) && (!s'.first ==> s'.firstBound == 0)
      && StageOf(s') == Registered(run, StageOf(s))
      && ResultOf(s') == Reported(run, ResultOf(s))
      && LaneOf(s') == FinishFirst(run, LaneOf(s))
    decreases |run|
  {
    hide Inv, Do, Enabled, StageOf, ResultOf, LaneOf;
    if run != [] {
      StepInv(c, s, run[0]);
      StepTells(c, s, run[0]);
      RunTells(c, Do(c, s, run[0]), run[1..]);
    }
  }

  /** When the lane last began something: its stage, or the stop. */
  function LastBegun(run: seq<Action>, now: nat, before: Option<nat>): (t: Option<nat>)
    decreases |run|
  {
    if run == [] then before
    else LastBegun(run[1..], now + (if run[0].Tick? then run[0].d else 0), if run[0].RunFirst? || run[0].RunStop? then Some(now) else before)
  }

  /** When the waiting finish p returned. */
  function ReturnedAt(run: seq<Action>, now: nat, p: nat, before: Option<nat>): (t: Option<nat>)
    decreases |run|
  {
    if run == [] then before
    else ReturnedAt(run[1..], now + (if run[0].Tick? then run[0].d else 0), p,
                    if (run[0].Receive? || run[0].Expire?) && run[0].p == p then Some(now) else before)
  }

  function BegunOf(s: State): Option<nat> {
    if s.stops != [] then Some(s.stops[|s.stops| - 1].at)
    else if s.procs != [] && s.procs[0].First? then Some(s.procs[0].since)
    else None
  }

  function ReturnOf(s: State, p: nat): Option<nat> {
    if p < |s.procs| && s.procs[p].Finished? then Some(s.procs[p].at) else None
  }

  lemma StepTimes(c: Config, s: State, a: Action, p: nat)
    requires Inv(c, s) && Enabled(c, s, a)
    ensures var s' := Do(c, s, a);
      && BegunOf(s') == (if a.RunFirst? || a.RunStop? then Some(s.now) else BegunOf(s))
      && ReturnOf(s', p) == (if (a.Receive? || a.Expire?) && a.p == p then Some(s.now) else ReturnOf(s, p))
  {
    hide OnTime, InTurn, OneResult, RightBound, RightStage;
  }

  /** The times the state records are the clock's when the actions happened. */
  lemma {:induction false} RunTimes(c: Config, s: State, run: seq<Action>, p: nat)
    requires Inv(c, s) && Possible(c, s, run)
    ensures BegunOf(Run(c, s, run)) == LastBegun(run, s.now, BegunOf(s))
    ensures ReturnOf(Run(c, s, run), p) == ReturnedAt(run, s.now, p, ReturnOf(s, p))
    decreases |run|
  {
    hide Inv, Enabled, BegunOf, ReturnOf;
    if run != [] {
      StepInv(c, s, run[0]);
      StepTimes(c, s, run[0], p);
      RunTimes(c, Do(c, s, run[0]), run[1..], p);
    }
  }

  // ----- the stop -----

  /** The stop came after the registered stage: that had returned, or the very bound it was registered with
      had passed since it began, and not much more than that. */
  predicate Awaited(c: Config, e: Stop, stage: Option<nat>) {
    && (e.first.Some? <==> stage.Some?)
    && (stage.Some? ==>
          && (e.over || e.at >= e.first.value + stage.value)
          && e.first.value <= e.at <= e.first.value + stage.value + c.slack)
  }

  /** However begin and finish are called, the stop and the preceding stage are each called at most once,
      and the stop never before that stage has returned or its bound has passed. */
  lemma StopOnceInTurn(c: Config, run: seq<Action>)
    requires Possible(c, INIT, run)
    ensures var s := Run(c, INIT, run);
      && |s.stops| <= 1 && s.firsts <= 1
      && forall i :: 0 <= i < |s.stops| ==> Awaited(c, s.stops[i], Registered(run, None)) && Some(s.stops[i].at) == LastBegun(run, 0, None)
  {
    RunInv(c, INIT, run);
    RunTells(c, INIT, run);
    RunTimes(c, INIT, run, 0);
    hide Run, Registered, LastBegun;
    var s := Run(c, INIT, run);
    forall i | 0 <= i < |s.stops| ensures Awaited(c, s.stops[i], Registered(run, None)) {
      assert InTurn(c, s.stops[i]) && RightStage(s, s.stops[i]);
    }
  }

  /** A stage is registered with this bound, and no stop was called without having run it under it. */
  predicate Preceded(s: State, bound: nat) {
    && OneLane(s)
    && s.first && s.firstBound == bound
    && (s.begun && s.procs[0].Claimed? ==> s.procs[0].first && s.procs[0].bound == bound)
    && (s.begun && s.procs[0].First? ==> s.procs[0].bound == bound)
    && forall i :: 0 <= i < |s.stops| ==> s.stops[i].first.Some? && s.stops[i].bound == bound
  }

  lemma PrecedeRegisters(c: Config, s: State, bound: nat)
    requires Inv(c, s) && Enabled(c, s, Precede(bound))
    ensures Preceded(Do(c, s, Precede(bound)), bound)
  {
  }

  lemma StepPreceded(c: Config, s: State, a: Action, bound: nat)
    requires Preceded(s, bound) && Enabled(c, s, a)
    ensures Preceded(Do(c, s, a), if a.Precede? then a.bound else bound)
  {
  }

  /** From then on no stop is called before the stage has run under its bound, or under that of a stage
      registered in its place before anything began. */
  lemma {:induction false} PrecededStopWaits(c: Config, s: State, run: seq<Action>, bound: nat)
    requires Preceded(s, bound) && Possible(c, s, run)
    ensures Registered(run, Some(bound)).Some? && Preceded(Run(c, s, run), Registered(run, Some(bound)).value)
    decreases |run|
  {
    hide Do, Preceded;
    if run != [] {
      StepPreceded(c, s, run[0], bound);
      PrecededStopWaits(c, Do(c, s, run[0]), run[1..], if run[0].Precede? then run[0].bound else bound);
    }
  }

  /** The lane's send never blocks, and the clock is never held by a timer nobody can serve. */
  lemma NothingBlocks(c: Config, s: State, result: Outcome)
    requires Inv(c, s)
    ensures s.begun && s.procs[0].Stopping? ==> Enabled(c, s, StopReturns(0, result))
    ensures !Enabled(c, s, Tick(1)) ==> exists p :: Enabled(c, s, RunStop(p)) || Enabled(c, s, Expire(p))
  {
    hide LaneCounts, InTurn, RightBound;
    if !Enabled(c, s, Tick(1)) {
      var i :| 0 <= i < |s.procs| && Due(s.procs[i]).Some? && s.now + 1 > Due(s.procs[i]).value + c.slack;
      assert Enabled(c, s, RunStop(i)) || Enabled(c, s, Expire(i));
    }
  }

  // ----- the wait -----

  /** A finish that waits returns within its wait bound plus the preceding stage's bound, plus the slack,
      with the stop's own result or, only after the whole bound, a timeout; at most one gets the result. */
  lemma FinishIsBounded(c: Config, run: seq<Action>, p: nat)
    requires Possible(c, INIT, run) && p < |Run(c, INIT, run).procs|
    ensures var s := Run(c, INIT, run);
      && var stage := Registered(run, None);
      && var bound := c.waitBound + if stage.Some? then stage.value else 0;
      && (s.procs[p].Awaiting? ==> s.now <= s.procs[p].since + bound + c.slack)
      && (s.procs[p].Finished? ==> s.procs[p].at <= s.procs[p].since + bound + c.slack && Some(s.procs[p].at) == ReturnedAt(run, 0, p, None))
      && (s.procs[p].Finished? && s.procs[p].answer.TimedOut? ==> s.procs[p].at >= s.procs[p].since + bound)
      && (Heard(s.procs[p]) ==> Reported(run, None) == Some(s.procs[p].answer.result) && FinishFirst(run, None) == Some(false))
      && (Heard(s.procs[p]) ==> forall q :: 0 <= q < |s.procs| && q != p ==> !Heard(s.procs[q]))
  {
    RunInv(c, INIT, run);
    RunTells(c, INIT, run);
    RunTimes(c, INIT, run, p);
    hide Run, LaneCounts, InTurn, Registered, Reported, FinishFirst, ReturnedAt;
    var s := Run(c, INIT, run);
    assert OnTime(c, s.now, s.procs[p]) && RightBound(c, s, s.procs[p]);
  }

  /** Nobody will ever be told: the stop ran inline, so there is no channel, or its one result is taken. */
  predicate Deaf(s: State) {
    s.begun && s.procs != [] && IsLane(s.procs[0]) && (s.procs[0].inline || (s.procs[0].Stopped? && s.done == Made(None)))
  }

  lemma {:induction false} DeafFinishHearsNothing(c: Config, s: State, run: seq<Action>, p: nat)
    requires Inv(c, s) && Deaf(s) && Possible(c, s, run)
    requires p < |Run(c, s, run).procs| && (p < |s.procs| ==> !Heard(s.procs[p]))
    ensures !Heard(Run(c, s, run).procs[p])
    decreases |run|
  {
    hide Inv, LaneCounts, InTurn, OnTime, RightBound;
    if run != [] {
      StepInv(c, s, run[0]);
      DeafStep(c, s, run[0], p);
      DeafFinishHearsNothing(c, Do(c, s, run[0]), run[1..], p);
    }
  }

  /** From then on every finish that had not returned waits out its whole bound and times out, the stop having
      returned or not. */
  lemma DeafFinishTimesOut(c: Config, s: State, run: seq<Action>, p: nat)
    requires Inv(c, s) && Deaf(s) && Possible(c, s, run)
    requires p < |Run(c, s, run).procs| && (p < |s.procs| ==> !s.procs[p].Finished?)
    ensures var q := Run(c, s, run).procs[p];
      q.Finished? ==> q.answer == TimedOut && q.at >= q.since + c.waitBound + Run(c, s, run).firstBound
  {
    RunInv(c, s, run);
    DeafFinishHearsNothing(c, s, run, p);
    hide Run, LaneCounts, InTurn, OneResult;
    var end := Run(c, s, run);
    assert OnTime(c, end.now, end.procs[p]) && RightBound(c, end, end.procs[p]);
  }

  lemma DeafStep(c: Config, s: State, a: Action, p: nat)
    requires Inv(c, s) && Deaf(s) && Enabled(c, s, a) && (p < |s.procs| ==> !Heard(s.procs[p]))
    ensures Deaf(Do(c, s, a)) && (p < |Do(c, s, a).procs| ==> !Heard(Do(c, s, a).procs[p]))
  {
    hide LaneCounts, InTurn, OnTime, RightBound;
  }

  /** What the lane does next when nothing delays it. */
  function Next(lane: Proc): (a: Action) {
    match lane
    case Claimed(_, _, _) => RunFirst(0)
    case First(_, _, _, over) => if over then RunStop(0) else FirstReturns(0)
    case _ => StopReturns(0, "ok")
  }

  function StepsLeft(lane: Proc): (n: nat) {
    match lane
    case Claimed(_, _, _) => 4
    case First(_, _, _, over) => if over then 2 else 3
    case Stopping(_) => 1
    case _ => 0
  }

  lemma NextStep(c: Config, s: State, p: nat)
    requires Inv(c, s) && s.begun && p < |s.procs| && s.procs[p].Awaiting? && !Deaf(s) && !s.procs[0].Stopped?
    ensures var a := Next(s.procs[0]);
      && Enabled(c, s, a)
      && var s' := Do(c, s, a);
      s'.begun && p < |s'.procs| && s'.procs[p] == s.procs[p] && !Deaf(s') && StepsLeft(s'.procs[0]) < StepsLeft(s.procs[0])
  {
    hide LaneCounts, InTurn, OnTime, RightBound;
  }

  /** Until then the lane's result can still reach a waiting finish, */
  lemma {:induction false} StillTold(c: Config, s: State, p: nat) returns (run: seq<Action>)
    requires Inv(c, s) && s.begun && p < |s.procs| && s.procs[p].Awaiting? && !Deaf(s)
    ensures Possible(c, s, run) && p < |Run(c, s, run).procs| && Heard(Run(c, s, run).procs[p])
    decreases StepsLeft(s.procs[0])
  {
    hide LaneCounts, InTurn, OnTime, RightBound;
    if s.procs[0].Stopped? {
      run := [Receive(p)];
      assert run[1..] == [];
    } else {
      var a := Next(s.procs[0]);
      NextStep(c, s, p);
      StepInv(c, s, a);
      var rest := StillTold(c, Do(c, s, a), p);
      run := [a] + rest;
      assert run[1..] == rest;
      hide Do, Enabled, Inv;
    }
  }

  /** so a waiting finish can be told if and only if the state is not deaf. */
  lemma CanBeTold(c: Config, s: State, p: nat)
    requires Inv(c, s) && s.begun && p < |s.procs| && s.procs[p].Awaiting?
    ensures (exists run :: Possible(c, s, run) && p < |Run(c, s, run).procs| && Heard(Run(c, s, run).procs[p])) <==> !Deaf(s)
  {
    hide Inv, Run, Possible;
    if Deaf(s) {
      forall run | Possible(c, s, run) && p < |Run(c, s, run).procs| ensures !Heard(Run(c, s, run).procs[p]) {
        DeafFinishHearsNothing(c, s, run, p);
      }
    } else {
      var run := StillTold(c, s, p);
    }
  }

  lemma Then(c: Config, s: State, a: Action, rest: seq<Action>)
    requires Enabled(c, s, a) && Possible(c, Do(c, s, a), rest)
    ensures Possible(c, s, [a] + rest) && Run(c, s, [a] + rest) == Run(c, Do(c, s, a), rest)
  {
    assert ([a] + rest)[1..] == rest;
  }

  /** A begin and a finish that got the stop's result, with no time gone by. */
  function Taken(c: Config): State {
    State(0, false, 0, true, Made(None), [Stopped(false, "ok"), Finished(Received("ok"), 0, c.waitBound, 0)],
          [Stop(0, None, 0, false)], 0)
  }

  lemma ReachTaken(c: Config, rest: seq<Action>) returns (run: seq<Action>)
    requires Possible(c, Taken(c), rest)
    ensures Possible(c, INIT, run) && Run(c, INIT, run) == Run(c, Taken(c), rest)
  {
    hide Run, Possible;
    var s1 := INIT.(begun := true, done := Made(None), procs := [Claimed(false, false, 0)]);
    var s2 := s1.(procs := [Stopping(false)], stops := [Stop(0, None, 0, false)]);
    var s3 := s2.(procs := [Stopped(false, "ok")], done := Made(Some("ok")));
    var s4 := s3.(procs := [Stopped(false, "ok"), Awaiting(0, c.waitBound)]);
    assert Do(c, INIT, CallBegin) == s1 && Do(c, s1, RunFirst(0)) == s2 && Do(c, s2, StopReturns(0, "ok")) == s3;
    assert Do(c, s3, CallFinish) == s4 && Do(c, s4, Receive(1)) == Taken(c);
    Then(c, s4, Receive(1), rest);
    Then(c, s3, CallFinish, [Receive(1)] + rest);
    Then(c, s2, StopReturns(0, "ok"), [CallFinish] + ([Receive(1)] + rest));
    run := [StopReturns(0, "ok")] + ([CallFinish] + ([Receive(1)] + rest));
    Then(c, s1, RunFirst(0), run);
    run := [RunFirst(0)] + run;
    Then(c, INIT, CallBegin, run);
    run := [CallBegin] + run;
  }

  lemma WaitInVain(c: Config) returns (run: seq<Action>)
    ensures Possible(c, Taken(c), run)
    ensures Run(c, Taken(c), run).procs == Taken(c).procs + [Finished(TimedOut, 0, c.waitBound, c.waitBound)]
  {
    var s := Taken(c);
    var s1 := s.(procs := s.procs + [Awaiting(0, c.waitBound)]);
    var s2 := s1.(now := c.waitBound);
    assert Do(c, s, CallFinish) == s1;
    assert Enabled(c, s1, Tick(c.waitBound)) && Do(c, s1, Tick(c.waitBound)) == s2;
    Then(c, s2, Expire(2), []);
    Then(c, s1, Tick(c.waitBound), [Expire(2)] + []);
    Then(c, s, CallFinish, [Tick(c.waitBound)] + ([Expire(2)] + []));
    run := [CallFinish] + ([Tick(c.waitBound)] + ([Expire(2)] + []));
  }

  /** It does happen: the second of two calls of finish waits out its whole bound although the stop has
      returned and the first call has its result. */
  lemma SecondFinishWaitsInVain(c: Config) returns (run: seq<Action>)
    ensures Possible(c, INIT, run)
    ensures Run(c, INIT, run).procs == [Stopped(false, "ok"), Finished(Received("ok"), 0, c.waitBound, 0),
                                        Finished(TimedOut, 0, c.waitBound, c.waitBound)]
  {
    hide Run, Possible;
    var rest := WaitInVain(c);
    run := ReachTaken(c, rest);
  }
}
