/** sharedStage: a teardown stage any number of exit paths reach, run by the first and waited for, within
    its bound, by the rest. */
module SharedStage {
  import opened Wrappers

  /** The stage's bound, and how late a timer or a woken goroutine may be. */
  datatype Config = Config(bound: nat, slack: nat)

  datatype Channel = Nil | Open | Closed

  /** A call of run: the one running the body; one that found the stage started and has still to look at
      the channel; one waiting until a time; or one that has returned, with the instant and whether the
      body was over by then. */
  datatype Call =
    | Running
    | Looking(deadline: nat)
    | Waiting(until: nat)
    | Returned(ran: bool, at: nat, over: bool)

  /** bodies counts how often the body was called; started is the time of the first call. */
  datatype State = State(now: nat, done: Channel, started: nat, calls: seq<Call>, bodies: nat)

  const INIT := State(0, Nil, 0, [], 0)

  datatype Action = Tick(d: nat) | CallRun | BodyReturns(p: nat) | Look(p: nat) | Wake(p: nat) | Expire(p: nat)

  predicate Enabled(c: Config, s: State, a: Action) {
    match a
    case Tick(d) => forall i :: 0 <= i < |s.calls| && s.calls[i].Waiting? ==> s.now + d <= s.calls[i].until + c.slack
    case CallRun => true
    case BodyReturns(p) => p < |s.calls| && s.calls[p].Running?
    case Look(p) => p < |s.calls| && s.calls[p].Looking?
    case Wake(p) => p < |s.calls| && s.calls[p].Waiting? && s.done.Closed?
    case Expire(p) => p < |s.calls| && s.calls[p].Waiting? && s.now >= s.calls[p].until
  }

  function Set(s: State, p: nat, call: Call): (s': State)
    requires p < |s.calls|
  {
    s.(calls := s.calls[p := call])
  }

  function Do(c: Config, s: State, a: Action): (s': State)
    requires Enabled(c, s, a)
  {
    match a
    case Tick(d) => s.(now := s.now + d)
    case CallRun =>
      if s.done.Nil? then s.(done := Open, started := s.now, calls := s.calls + [Running], bodies := s.bodies + 1)
      else s.(calls := s.calls + [Looking(s.started + c.bound)])
    case BodyReturns(p) => Set(s, p, Returned(true, s.now, true)).(done := Closed)
    case Look(p) =>
      if s.done.Closed? then Set(s, p, Returned(false, s.now, true))
      else if s.calls[p].deadline <= s.now then Set(s, p, Returned(false, s.now, false))
      else Set(s, p, Waiting(s.calls[p].deadline))
    case Wake(p) => Set(s, p, Returned(false, s.now, true))
    case Expire(p) => Set(s, p, Returned(false, s.now, s.done.Closed?))
  }

  ghost predicate Possible(c: Config, s: State, run: seq<Action>)
    decreases |run|
  {
    run == [] || (Enabled(c, s, run[0]) && Possible(c, Do(c, s, run[0]), run[1..]))
  }

  function Run(c: Config, s: State, run: seq<Action>): (s': State)
    requires Possible(c, s, run)
    decreases |run|
  {
    if run == [] then s else Run(c, Do(c, s, run[0]), run[1..])
  }

  // ----- what every run keeps -----

  /** A call agrees with the clock and the stage: every deadline is the stage's own, a waiting call is not
      late, and a call that returned with the body unfinished did so only once the bound had passed. */
  predicate Sound(c: Config, s: State, call: Call) {
    match call
    case Running => s.done.Open?
    case Looking(deadline) => !s.done.Nil? && deadline == s.started + c.bound
    case Waiting(until) => !s.done.Nil? && until == s.started + c.bound && s.now <= until + c.slack
    case Returned(ran, at, over) =>
      && s.started <= at <= s.now
      && (over ==> s.done.Closed?)
      && (!over ==> !ran && at >= s.started + c.bound)
  }

  /** The body was called once if at all, the channel is open exactly while its one caller runs, and only
      that caller is first. */
  ghost predicate Inv(c: Config, s: State) {
    && s.started <= s.now
    && (forall i :: 0 <= i < |s.calls| ==> Sound(c, s, s.calls[i]))
    && s.bodies == (if s.done.Nil? then 0 else 1)
    && (s.done.Nil? <==> s.calls == [])
    && (s.done.Open? ==> s.calls[0].Running?)
    && (s.done.Closed? ==> s.calls[0].Returned? && s.calls[0].ran)
    && (forall i :: 0 < i < |s.calls| ==> !s.calls[i].Running? && (s.calls[i].Returned? ==> !s.calls[i].ran))
  }

  lemma StepSound(c: Config, s: State, a: Action, i: nat)
    requires Inv(c, s) && Enabled(c, s, a) && i < |Do(c, s, a).calls|
    ensures Sound(c, Do(c, s, a), Do(c, s, a).calls[i])
  {
    if i < |s.calls| {
      assert Sound(c, s, s.calls[i]);
    }
  }

  lemma StepInv(c: Config, s: State, a: Action)
    requires Inv(c, s) && Enabled(c, s, a)
    ensures Inv(c, Do(c, s, a))
  {
    hide Sound;
    var s' := Do(c, s, a);
    forall i | 0 <= i < |s'.calls| ensures Sound(c, s', s'.calls[i]) {
      StepSound(c, s, a, i);
    }
  }

  lemma {:induction false} RunInv(c: Config, s: State, run: seq<Action>)
    requires Inv(c, s) && Possible(c, s, run)
    ensures Inv(c, Run(c, s, run))
    decreases |run|
  {
    hide Inv, Do, Enabled;
    if run != [] {
      StepInv(c, s, run[0]);
      RunInv(c, Do(c, s, run[0]), run[1..]);
    }
  }

  // ----- what a run's own actions say -----

  /** The clock, when the first call came, whether the body has returned, and each return with its instant
      and whether the body was over. */
  datatype Ledger = Ledger(now: nat, started: Option<nat>, over: bool, ended: map<nat, (nat, bool)>)

  /** A call that looks returns at once if the body is over or the bound has passed; the other returns are
      the actions' own. */
  function Note(c: Config, l: Ledger, a: Action): (l': Ledger) {
    match a
    case Tick(d) => l.(now := l.now + d)
    case CallRun => if l.started.None? then l.(started := Some(l.now)) else l
    case BodyReturns(p) => l.(over := true, ended := l.ended[p := (l.now, true)])
    case Look(p) =>
      if l.over || (l.started.Some? && l.started.value + c.bound <= l.now) then l.(ended := l.ended[p := (l.now, l.over)]) else l
    case Wake(p) => l.(ended := l.ended[p := (l.now, true)])
    case Expire(p) => l.(ended := l.ended[p := (l.now, l.over)])
  }

  function Tell(c: Config, l: Ledger, run: seq<Action>): (l': Ledger)
    decreases |run|
  {
    if run == [] then l else Tell(c, Note(c, l, run[0]), run[1..])
  }

  ghost predicate Fits(s: State, l: Ledger) {
    && l.now == s.now && l.over == s.done.Closed? && l.started == (if s.done.Nil? then None else Some(s.started))
    && (forall i :: i in l.ended ==> i < |s.calls|)
    && (forall i :: 0 <= i < |s.calls| ==> (s.calls[i].Returned? <==> i in l.ended))
    && (forall i :: 0 <= i < |s.calls| && s.calls[i].Returned? ==> l.ended[i] == (s.calls[i].at, s.calls[i].over))
  }

  lemma StepTells(c: Config, s: State, a: Action, l: Ledger)
    requires Inv(c, s) && Fits(s, l) && Enabled(c, s, a)
    ensures Fits(Do(c, s, a), Note(c, l, a))
  {
    if a.Look? {
      assert Sound(c, s, s.calls[a.p]);
    }
    hide Sound;
  }

  /** Each call has returned exactly when and as the actions say. */
  lemma {:induction false} RunTells(c: Config, s: State, run: seq<Action>, l: Ledger)
    requires Inv(c, s) && Fits(s, l) && Possible(c, s, run)
    ensures Fits(Run(c, s, run), Tell(c, l, run))
    decreases |run|
  {
    hide Inv, Do, Enabled, Fits, Note;
    if run != [] {
      StepInv(c, s, run[0]);
      StepTells(c, s, run[0], l);
      RunTells(c, Do(c, s, run[0]), run[1..], Note(c, l, run[0]));
    }
  }

  /** However many paths reach the stage, its body is called once, by the first of them. */
  lemma BodyRunsOnce(c: Config, run: seq<Action>)
    requires Possible(c, INIT, run)
    ensures var s := Run(c, INIT, run);
      && s.bodies == (if s.calls == [] then 0 else 1)
      && (forall i :: 0 < i < |s.calls| ==> !s.calls[i].Running? && (s.calls[i].Returned? ==> !s.calls[i].ran))
  {
    RunInv(c, INIT, run);
    hide Run;
  }

  /** Every call returns only when the body has finished or, for the others, the bound has passed since it
      began; and none waits longer than that. */
  lemma CallsReturnInTime(c: Config, run: seq<Action>, p: nat)
    requires Possible(c, INIT, run) && p < |Run(c, INIT, run).calls|
    ensures var s := Run(c, INIT, run);
      && (s.calls[p].Returned? ==> s.calls[p].over || (!s.calls[p].ran && s.calls[p].at >= s.started + c.bound))
      && (s.calls[p].Returned? && s.calls[p].over ==> s.done.Closed?)
      && (s.calls[p].Waiting? ==> s.now <= s.started + c.bound + c.slack)
  {
    RunInv(c, INIT, run);
    hide Run;
    var s := Run(c, INIT, run);
    assert Sound(c, s, s.calls[p]);
  }

  /** No call is stuck: a waiting one can move as soon as the body is over or the bound has passed, the
      others at once. */
  lemma NobodyStuck(c: Config, s: State, p: nat)
    requires Inv(c, s) && p < |s.calls| && !s.calls[p].Returned?
    requires s.calls[p].Waiting? ==> s.done.Closed? || s.now >= s.started + c.bound
    ensures exists a :: Enabled(c, s, a) && !a.Tick? && !a.CallRun? && a.p == p
  {
    assert Sound(c, s, s.calls[p]);
    var a := match s.calls[p] {
      case Running => BodyReturns(p)
      case Looking(_) => Look(p)
      case _ => if s.done.Closed? then Wake(p) else Expire(p)
    };
    assert Enabled(c, s, a);
  }
}
