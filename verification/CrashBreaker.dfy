/** crashBreaker: failure recorders and the healthy-window timer racing over one record under one mutex. */
module CrashBreaker {
  import opened Wrappers
  import opened CrashRecord

  /** The record's file: absent, a record, or bytes that do not parse. */
  datatype Disk = Absent | Stored(record: Record) | Malformed

  /** What load makes of the file. */
  function Loaded(d: Disk): (r: Record) {
    if d.Stored? then d.record else EMPTY
  }

  /** A goroutine inside the breaker: write before and after its flag, between its read and its rename; or
      resetIfHealthy before its check and before its remove. */
  datatype Proc =
    | Recording(origin: Origin, component: string, permanent: bool)
    | Flagged(origin: Origin, component: string, permanent: bool)
    | Adding(record: Record, origin: Origin, component: string, permanent: bool)
    | Checking
    | Clearing
    | Over

  /** holder is the goroutine inside the mutex; written lists the failures this process has stored, and
      cleared counts the records its timer has removed. */
  datatype State = State(now: int, disk: Disk, crashed: bool, holder: Option<nat>, procs: seq<Proc>,
                         written: seq<Failure>, cleared: nat)

  datatype Action =
    | Tick(d: nat)
    | Fails(origin: Origin, component: string, permanent: bool)
    | TimerFires
    | Lock(p: nat)
    | Read(p: nat, readable: bool)
    | Persist(p: nat, ok: bool)
    | Clear(p: nat, ok: bool)

  predicate Enabled(s: State, a: Action) {
    match a
    case Tick(_) => true
    case Fails(_, _, _) => true
    case TimerFires => true
    case Lock(p) => p < |s.procs| && s.holder.None? && (s.procs[p].Recording? || s.procs[p].Checking?)
    case Read(p, _) => p < |s.procs| && s.procs[p].Flagged?
    case Persist(p, _) => p < |s.procs| && s.procs[p].Adding?
    case Clear(p, _) => p < |s.procs| && s.procs[p].Clearing?
  }

  function Set(s: State, p: nat, proc: Proc): (s': State)
    requires p < |s.procs|
  {
    s.(procs := s.procs[p := proc])
  }

  function Do(s: State, a: Action): (s': State)
    requires Enabled(s, a)
  {
    match a
    case Tick(d) => s.(now := s.now + d)
    case Fails(origin, component, permanent) => s.(procs := s.procs + [Recording(origin, component, permanent)])
    case TimerFires => s.(procs := s.procs + [Checking])
    case Lock(p) =>
      if s.procs[p].Recording? then
        var r := s.procs[p];
        Set(s, p, Flagged(r.origin, r.component, r.permanent)).(holder := Some(p), crashed := true)
      else if s.crashed then Set(s, p, Over)
      else Set(s, p, Clearing).(holder := Some(p))
    case Read(p, readable) =>
      var r := if readable then Loaded(s.disk) else EMPTY;
      var f := s.procs[p];
      Set(s, p, Adding(Record(Pruned(r.failures, s.now), r.trippedAt), f.origin, f.component, f.permanent))
    case Persist(p, ok) =>
      var done, a := Set(s, p, Over).(holder := None), s.procs[p];
      var f := Failure(s.now, a.origin, a.component, a.permanent);
      if ok then done.(disk := Stored(Add(a.record, f)), written := s.written + [f]) else done
    case Clear(p, ok) =>
      var done := Set(s, p, Over).(holder := None);
      if ok then done.(disk := Absent, cleared := s.cleared + 1) else done
  }

  ghost predicate Possible(s: State, run: seq<Action>)
    decreases |run|
  {
    run == [] || (Enabled(s, run[0]) && Possible(Do(s, run[0]), run[1..]))
  }

  function Run(s: State, run: seq<Action>): (s': State)
    requires Possible(s, run)
    decreases |run|
  {
    if run == [] then s else Run(Do(s, run[0]), run[1..])
  }

  /** A process that has just started, over whatever record it finds. */
  function Init(now: int, disk: Disk): (s: State) {
    State(now, disk, false, None, [], [], 0)
  }

  // ----- what every interleaving keeps -----

  predicate Inside(p: Proc) {
    p.Flagged? || p.Adding? || p.Clearing?
  }

  /** One goroutine inside the mutex, the flag set while a recorder is and clear while the timer is, and
      nothing stored without it. */
  ghost predicate Exclusive(s: State) {
    && (forall i :: 0 <= i < |s.procs| ==> (Inside(s.procs[i]) <==> s.holder == Some(i)))
    && (forall i :: 0 <= i < |s.procs| && (s.procs[i].Flagged? || s.procs[i].Adding?) ==> s.crashed)
    && (forall i :: 0 <= i < |s.procs| && s.procs[i].Clearing? ==> !s.crashed)
    && (s.holder.Some? ==> s.holder.value < |s.procs|)
    && (!s.crashed ==> s.written == [])
  }

  lemma StepExclusive(s: State, a: Action)
    requires Exclusive(s) && Enabled(s, a)
    ensures Exclusive(Do(s, a))
    ensures s.crashed ==> Do(s, a).crashed && Do(s, a).cleared == s.cleared
  {
    hide Pruned, Add, Loaded;
  }

  /** Once this process has set its flag, no schedule lets its timer remove the record. */
  lemma {:induction false} TimerNeverClearsAfterACrash(s: State, run: seq<Action>)
    requires Exclusive(s) && s.crashed && Possible(s, run)
    ensures Run(s, run).cleared == s.cleared && Run(s, run).crashed
    decreases |run|
  {
    hide Do, Exclusive;
    if run != [] {
      StepExclusive(s, run[0]);
      TimerNeverClearsAfterACrash(Do(s, run[0]), run[1..]);
    }
  }

  lemma {:induction false} RunExclusive(s: State, run: seq<Action>)
    requires Exclusive(s) && Possible(s, run)
    ensures Exclusive(Run(s, run)) && s.now <= Run(s, run).now && s.cleared <= Run(s, run).cleared
    decreases |run|
  {
    hide Exclusive;
    if run != [] {
      StepExclusive(s, run[0]);
      RunExclusive(Do(s, run[0]), run[1..]);
    }
  }

  // ----- the race is a serial history -----

  /** The breaker without its mutex and goroutines: the clock, the file, how each goroutine began, and when
      each read was made and whether it succeeded. */
  datatype Log = Log(now: int, disk: Disk, begun: seq<Proc>, looked: map<nat, (int, bool)>)

  /** One action on it. A store is one update of the file as it stands, at the times of its read and of the
      store, of the failure its goroutine was begun with; a store after a failed read updates an empty record. */
  function Serial(l: Log, a: Action): (l': Log) {
    match a
    case Tick(d) => l.(now := l.now + d)
    case Fails(origin, component, permanent) => l.(begun := l.begun + [Recording(origin, component, permanent)])
    case TimerFires => l.(begun := l.begun + [Checking])
    case Lock(_) => l
    case Read(p, readable) => l.(looked := l.looked[p := (l.now, readable)])
    case Persist(p, ok) =>
      if ok && p in l.looked && p < |l.begun| && l.begun[p].Recording? then
        var b := l.begun[p];
        l.(disk := Stored(Update(if l.looked[p].1 && l.disk.Stored? then l.disk.record else EMPTY, l.looked[p].0,
                                 Failure(l.now, b.origin, b.component, b.permanent))))
      else l
    case Clear(_, ok) => if ok then l.(disk := Absent) else l
  }

  function SerialRun(l: Log, run: seq<Action>): (l': Log)
    decreases |run|
  {
    if run == [] then l else SerialRun(Serial(l, run[0]), run[1..])
  }

  /** A goroutine carries the failure it was begun with, and a copy about to be stored is of the file as it
      still stands, pruned when it was read. */
  ghost predicate FitsLog(s: State, l: Log, i: nat)
    requires i < |s.procs| == |l.begun|
  {
    match s.procs[i]
    case Recording(_, _, _) => l.begun[i] == s.procs[i]
    case Flagged(origin, component, permanent) => l.begun[i] == Recording(origin, component, permanent)
    case Adding(record, origin, component, permanent) =>
      && l.begun[i] == Recording(origin, component, permanent) && i in l.looked
      && var base := if l.looked[i].1 then Loaded(s.disk) else EMPTY;
         record == Record(Pruned(base.failures, l.looked[i].0), base.trippedAt)
    case _ => true
  }

  ghost predicate InStep(s: State, l: Log) {
    && Exclusive(s) && s.now == l.now && s.disk == l.disk && |s.procs| == |l.begun|
    && forall i :: 0 <= i < |s.procs| ==> FitsLog(s, l, i)
  }

  lemma StepInStep(s: State, l: Log, a: Action)
    requires InStep(s, l) && Enabled(s, a)
    ensures InStep(Do(s, a), Serial(l, a))
  {
    hide Pruned, Add;
    StepExclusive(s, a);
    var s', l' := Do(s, a), Serial(l, a);
    if a.Persist? {
      assert FitsLog(s, l, a.p);
    }
    forall i | 0 <= i < |s'.procs| ensures FitsLog(s', l', i) {
      if i < |s.procs| {
        assert FitsLog(s, l, i);
      }
    }
    hide Exclusive;
  }

  /** Whatever the interleaving, the file is what the stores and removals make of it one after another, in the
      order they happened: each store adds the failure its own call was made with, dated when it was stored, to
      the record as it stood, and leaves an open breaker open. */
  lemma {:induction false} RaceIsSerial(s: State, l: Log, run: seq<Action>)
    requires InStep(s, l) && Possible(s, run)
    ensures InStep(Run(s, run), SerialRun(l, run))
    decreases |run|
  {
    hide Do, Serial, InStep, Enabled;
    if run != [] {
      StepInStep(s, l, run[0]);
      RaceIsSerial(Do(s, run[0]), Serial(l, run[0]), run[1..]);
    }
  }

  lemma SerialFromTheStart(now: int, disk: Disk, run: seq<Action>)
    requires Possible(Init(now, disk), run)
    ensures Run(Init(now, disk), run).disk == SerialRun(Log(now, disk, [], map[]), run).disk
  {
    RaceIsSerial(Init(now, disk), Log(now, disk, [], map[]), run);
    hide Run, SerialRun;
  }

  // ----- what becomes of a failure in the record -----

  /** A recorder's read fails, and the recorder goes on to store. */
  predicate Forgets(run: seq<Action>) {
    run != [] &&
    ((run[0].Read? && !run[0].readable && Persist(run[0].p, true) in run[1..]) || Forgets(run[1..]))
  }

  /** The same, with the read of `blind` already failed. */
  predicate ForgetsFrom(run: seq<Action>, blind: Option<nat>) {
    Forgets(run) || (blind.Some? && Persist(blind.value, true) in run)
  }

  /** The failure a recorder is about to add. */
  function AddedBy(s: State, p: nat): (f: Failure)
    requires p < |s.procs| && s.procs[p].Adding?
  {
    Failure(s.now, s.procs[p].origin, s.procs[p].component, s.procs[p].permanent)
  }

  /** No store of the run stores f itself again. */
  ghost predicate NeverStores(s: State, run: seq<Action>, f: Failure)
    requires Possible(s, run)
    decreases |run|
  {
    run != [] ==>
      && (run[0].Persist? && run[0].ok ==> AddedBy(s, run[0].p) != f)
      && NeverStores(Do(s, run[0]), run[1..], f)
  }

  predicate NobodyAdding(s: State) {
    forall i :: 0 <= i < |s.procs| ==> !s.procs[i].Adding?
  }

  predicate InRecord(s: State, f: Failure) {
    s.disk.Stored? && f in s.disk.record.failures
  }

  /** f is in the record, and in every copy about to be stored but that of a recorder whose read failed,
      which is empty. */
  ghost predicate Holding(s: State, f: Failure, blind: Option<nat>) {
    && InRecord(s, f)
    && (blind.Some? ==> blind.value < |s.procs| && s.procs[blind.value].Adding?)
    && (forall i :: 0 <= i < |s.procs| && s.procs[i].Adding? ==>
          if blind == Some(i) then s.procs[i].record.failures == [] else f in s.procs[i].record.failures)
  }

  /** f is in neither. */
  ghost predicate Gone(s: State, f: Failure) {
    !InRecord(s, f) && forall i :: 0 <= i < |s.procs| && s.procs[i].Adding? ==> f !in s.procs[i].record.failures
  }

  lemma {:induction false} PrunedMember(fs: seq<Failure>, now: int, f: Failure)
    ensures f in Pruned(fs, now) <==> f in fs && Within(f, now)
  {
    if fs != [] {
      var n := |fs| - 1;
      assert fs == fs[..n] + [fs[n]];
      PrunedMember(fs[..n], now, f);
    }
  }

  lemma AddMember(r: Record, g: Failure, f: Failure)
    ensures f in Add(r, g).failures <==> (f in r.failures || f == g) && Within(f, g.at)
  {
    PrunedMember(r.failures + [g], g.at, f);
  }

  /** A step other than a failed read, the blind recorder's store and the timer's removal keeps f. */
  lemma StepHolding(s: State, a: Action, f: Failure, blind: Option<nat>)
    requires Exclusive(s) && Enabled(s, a) && Holding(s, f, blind) && Within(f, s.now)
    requires !(a.Persist? && blind == Some(a.p)) && !(a.Read? && !a.readable) && !(a.Clear? && a.ok)
    ensures Holding(Do(s, a), f, blind)
  {
    hide Pruned, Add;
    if a.Read? {
      PrunedMember(Loaded(s.disk).failures, s.now, f);
    } else if a.Persist? {
      AddMember(s.procs[a.p].record, AddedBy(s, a.p), f);
    }
  }

  /** A failed read leaves a blind recorder. */
  lemma FailedReadBlinds(s: State, p: nat, f: Failure, blind: Option<nat>)
    requires Exclusive(s) && Enabled(s, Read(p, false)) && Holding(s, f, blind)
    ensures blind == None && Holding(Do(s, Read(p, false)), f, Some(p))
  {
    hide Pruned, Add;
    NothingPruned(s.now);
  }

  /** A blind recorder's store drops f; if the store fails nothing is lost. */
  lemma BlindStore(s: State, p: nat, f: Failure, ok: bool)
    requires Exclusive(s) && Enabled(s, Persist(p, ok)) && Holding(s, f, Some(p))
    ensures ok && AddedBy(s, p) != f ==> Gone(Do(s, Persist(p, ok)), f)
    ensures !ok ==> Holding(Do(s, Persist(p, ok)), f, None)
  {
    hide Pruned, Add;
    AddMember(s.procs[p].record, AddedBy(s, p), f);
  }

  lemma StepGone(s: State, a: Action, f: Failure)
    requires Gone(s, f) && Enabled(s, a) && (a.Persist? && a.ok ==> AddedBy(s, a.p) != f)
    ensures Gone(Do(s, a), f)
  {
    hide Pruned, Add;
    if a.Read? {
      PrunedMember(Loaded(s.disk).failures, s.now, f);
      NothingPruned(s.now);
    } else if a.Persist? {
      AddMember(s.procs[a.p].record, AddedBy(s, a.p), f);
    }
  }

  /** A failure gone from the record stays gone unless it is stored again. */
  lemma {:induction false} GoneStaysGone(s: State, run: seq<Action>, f: Failure)
    requires Gone(s, f) && Possible(s, run) && NeverStores(s, run, f)
    ensures !InRecord(Run(s, run), f)
    decreases |run|
  {
    hide Do, Enabled;
    if run != [] {
      StepGone(s, run[0], f);
      GoneStaysGone(Do(s, run[0]), run[1..], f);
    }
  }

  /** A goroutine that is over stores nothing more. */
  lemma {:induction false} OverStoresNothing(s: State, run: seq<Action>, p: nat)
    requires Possible(s, run) && p < |s.procs| && s.procs[p].Over?
    ensures Persist(p, true) !in run
    decreases |run|
  {
    if run != [] {
      OverStoresNothing(Do(s, run[0]), run[1..], p);
      assert run == [run[0]] + run[1..];
    }
  }

  lemma {:induction false} KeptUnlessForgotten(s: State, run: seq<Action>, f: Failure, blind: Option<nat>)
    requires Exclusive(s) && Possible(s, run) && Holding(s, f, blind) && Within(f, Run(s, run).now)
    ensures !ForgetsFrom(run, blind) && Run(s, run).cleared == s.cleared ==> InRecord(Run(s, run), f)
    ensures NeverStores(s, run, f) && (ForgetsFrom(run, blind) || Run(s, run).cleared > s.cleared) ==> !InRecord(Run(s, run), f)
    decreases |run|
  {
    if run != [] {
      var a, s', rest := run[0], Do(s, run[0]), run[1..];
      RunExclusive(s, run);
      StepExclusive(s, a);
      RunExclusive(s', rest);
      assert run == [a] + rest;
      if (a.Persist? && a.ok && blind == Some(a.p)) || (a.Clear? && a.ok) {
        LosingStep(s, a, f, blind);
        if NeverStores(s, run, f) {
          GoneStaysGone(s', rest, f);
        }
      } else {
        var blind' := BlindAfter(a, blind);
        KeepingStep(s, a, f, blind);
        if a.Persist? {
          OverStoresNothing(s', rest, a.p);
        }
        hide Do, Enabled, Holding, Exclusive;
        KeptUnlessForgotten(s', rest, f, blind');
      }
    }
  }

  function BlindAfter(a: Action, blind: Option<nat>): Option<nat> {
    if a.Read? && !a.readable then Some(a.p)
    else if a.Persist? && blind == Some(a.p) then None
    else blind
  }

  lemma KeepingStep(s: State, a: Action, f: Failure, blind: Option<nat>)
    requires Exclusive(s) && Enabled(s, a) && Holding(s, f, blind) && Within(f, s.now)
    requires !(a.Persist? && a.ok && blind == Some(a.p)) && !(a.Clear? && a.ok)
    ensures Holding(Do(s, a), f, BlindAfter(a, blind)) && (a.Read? && !a.readable ==> blind == None)
    ensures Do(s, a).cleared == s.cleared && (a.Persist? ==> Do(s, a).procs[a.p].Over?)
  {
    if a.Read? && !a.readable {
      FailedReadBlinds(s, a.p, f, blind);
    } else if a.Persist? && blind == Some(a.p) {
      BlindStore(s, a.p, f, a.ok);
    } else {
      StepHolding(s, a, f, blind);
    }
    hide Holding, Exclusive, Pruned, Add;
  }

  lemma LosingStep(s: State, a: Action, f: Failure, blind: Option<nat>)
    requires Exclusive(s) && Enabled(s, a) && Holding(s, f, blind)
    requires (a.Persist? && a.ok && blind == Some(a.p)) || (a.Clear? && a.ok)
    ensures a.Clear? || AddedBy(s, a.p) != f ==> Gone(Do(s, a), f)
    ensures a.Clear? ==> Do(s, a).cleared > s.cleared
  {
    if a.Persist? {
      BlindStore(s, a.p, f, a.ok);
    }
    hide Pruned, Add;
  }

  /** No failure is lost but two ways. A failure in the record, whoever stored it, and still in its window at
      the end, is in the record then unless the timer removed the record or some recorder stored after its
      read failed; and if either happened it is not, unless it was itself stored again. Once this process has
      set its flag the timer is no such way. */
  lemma NoFailureIsLost(s: State, run: seq<Action>, f: Failure)
    requires Exclusive(s) && NobodyAdding(s) && InRecord(s, f)
    requires Possible(s, run) && Within(f, Run(s, run).now)
    ensures !Forgets(run) && Run(s, run).cleared == s.cleared ==> InRecord(Run(s, run), f)
    ensures NeverStores(s, run, f) ==> (InRecord(Run(s, run), f) <==> !Forgets(run) && Run(s, run).cleared == s.cleared)
    ensures s.crashed ==> Run(s, run).cleared == s.cleared
  {
    hide Do, Forgets, Exclusive;
    RunExclusive(s, run);
    KeptUnlessForgotten(s, run, f, None);
    if s.crashed {
      TimerNeverClearsAfterACrash(s, run);
    }
  }

  /** A store puts its failure in the record, with the flag set and nobody else about to store. */
  lemma StoredIsInRecord(s: State, p: nat)
    requires Exclusive(s) && Enabled(s, Persist(p, true))
    ensures var s' := Do(s, Persist(p, true)); InRecord(s', AddedBy(s, p)) && s'.crashed && NobodyAdding(s')
  {
    hide Pruned, Add;
    AddMember(s.procs[p].record, AddedBy(s, p), AddedBy(s, p));
  }

  /** From the start of a process, over whatever record it finds: of a failure it has stored, after any run
      before and any run since. */
  lemma FromTheStart(now: int, disk: Disk, before: seq<Action>, p: nat, since: seq<Action>)
    requires Possible(Init(now, disk), before) && Enabled(Run(Init(now, disk), before), Persist(p, true))
    requires Possible(Do(Run(Init(now, disk), before), Persist(p, true)), since)
    ensures var s := Run(Init(now, disk), before);
      var f, stored := AddedBy(s, p), Do(s, Persist(p, true));
      var end := Run(stored, since);
      Within(f, end.now) ==> (!Forgets(since) ==> InRecord(end, f)) && (NeverStores(stored, since, f) ==> (InRecord(end, f) <==> !Forgets(since)))
  {
    var s := Run(Init(now, disk), before);
    RunExclusive(Init(now, disk), before);
    StoredIsInRecord(s, p);
    StepExclusive(s, Persist(p, true));
    hide Do, Run, Exclusive, Forgets;
    var stored := Do(s, Persist(p, true));
    if Within(AddedBy(s, p), Run(stored, since).now) {
      NoFailureIsLost(stored, since, AddedBy(s, p));
    }
  }

  /** Of a failure earlier processes left in the record this one finds: a loop is counted across restarts. */
  lemma InheritedFromTheStart(now: int, found: Record, run: seq<Action>, f: Failure)
    requires f in found.failures && Possible(Init(now, Stored(found)), run) && Within(f, Run(Init(now, Stored(found)), run).now)
    ensures var s, end := Init(now, Stored(found)), Run(Init(now, Stored(found)), run);
      && (!Forgets(run) && end.cleared == 0 ==> InRecord(end, f))
      && (NeverStores(s, run, f) ==> (InRecord(end, f) <==> !Forgets(run) && end.cleared == 0))
  {
    hide Run, Forgets;
    NoFailureIsLost(Init(now, Stored(found)), run, f);
  }

  /** A read that fails is taken for an empty record, so the store after it drops every earlier failure. */
  lemma UnreadableReadForgets(s: State, p: nat)
    requires p < |s.procs| && s.procs[p].Flagged?
    ensures var s1 := Do(s, Read(p, false));
      && Enabled(s1, Persist(p, true))
      && var r := Loaded(Do(s1, Persist(p, true)).disk);
      r.failures == [Failure(s.now, s.procs[p].origin, s.procs[p].component, s.procs[p].permanent)]
  {
    var f := Failure(s.now, s.procs[p].origin, s.procs[p].component, s.procs[p].permanent);
    assert Pruned([], s.now) == [];
    assert [] + [f] == [f];
    PrunedAppend([], f, s.now);
  }

  // ----- what a goroutine left alone does -----

  lemma Then(s: State, a: Action, rest: seq<Action>)
    requires Enabled(s, a) && Possible(Do(s, a), rest)
    ensures Possible(s, [a] + rest) && Run(s, [a] + rest) == Run(Do(s, a), rest)
  {
    assert ([a] + rest)[1..] == rest;
  }

  /** A timer that finds the flag clear and the mutex free removes the record. */
  lemma HealthyTimerClears(s: State, p: nat)
    requires p < |s.procs| && s.procs[p].Checking? && s.holder.None? && !s.crashed
    ensures Possible(s, [Lock(p)] + ([Clear(p, true)] + []))
    ensures Run(s, [Lock(p)] + ([Clear(p, true)] + [])).disk == Absent
  {
    var s1 := Do(s, Lock(p));
    Then(s1, Clear(p, true), []);
    Then(s, Lock(p), [Clear(p, true)] + []);
  }

  /** A recorder that finds the mutex free sets the flag and stores its failure on the record as it stands. */
  lemma RecorderStores(s: State, p: nat, readable: bool)
    requires p < |s.procs| && s.procs[p].Recording? && s.holder.None?
    ensures var r, found := s.procs[p], if readable && s.disk.Stored? then s.disk.record else EMPTY;
      var run := [Lock(p)] + ([Read(p, readable)] + ([Persist(p, true)] + []));
      && Possible(s, run)
      && Run(s, run).crashed
      && Run(s, run).disk == Stored(Update(found, s.now, Failure(s.now, r.origin, r.component, r.permanent)))
  {
    hide Pruned, Add;
    var s1 := Do(s, Lock(p));
    var s2 := Do(s1, Read(p, readable));
    Then(s2, Persist(p, true), []);
    Then(s1, Read(p, readable), [Persist(p, true)] + []);
    Then(s, Lock(p), [Read(p, readable)] + ([Persist(p, true)] + []));
  }

  // ----- what becomes of an open breaker -----

  /** The breaker is open since t, in the file and in every copy about to be stored but a blind one. */
  ghost predicate OpenSince(s: State, t: int, blind: Option<nat>) {
    && s.disk.Stored? && s.disk.record.trippedAt == Some(t)
    && (blind.Some? ==> blind.value < |s.procs| && s.procs[blind.value].Adding?)
    && (forall i :: 0 <= i < |s.procs| && s.procs[i].Adding? && blind != Some(i) ==> s.procs[i].record.trippedAt == Some(t))
  }

  lemma StepOpen(s: State, a: Action, t: int, blind: Option<nat>)
    requires Exclusive(s) && Enabled(s, a) && OpenSince(s, t, blind)
    requires !(a.Persist? && a.ok && blind == Some(a.p)) && !(a.Clear? && a.ok)
    ensures OpenSince(Do(s, a), t, BlindAfter(a, blind)) && (a.Read? && !a.readable ==> blind == None)
    ensures a.Persist? ==> Do(s, a).procs[a.p].Over?
  {
    hide Pruned, Reaches;
  }

  /** Once open it stays open, since the same failure, unless the timer removes the record or a recorder stores
      after its read failed. */
  lemma {:induction false} OpenStaysOpen(s: State, run: seq<Action>, t: int, blind: Option<nat>)
    requires Exclusive(s) && Possible(s, run) && OpenSince(s, t, blind)
    requires !ForgetsFrom(run, blind) && Run(s, run).cleared == s.cleared
    ensures Run(s, run).disk.Stored? && Run(s, run).disk.record.trippedAt == Some(t)
    decreases |run|
  {
    if run != [] {
      var a, s', rest := run[0], Do(s, run[0]), run[1..];
      StepExclusive(s, a);
      RunExclusive(s', rest);
      assert run == [a] + rest;
      StepOpen(s, a, t, blind);
      if a.Persist? {
        OverStoresNothing(s', rest, a.p);
      }
      assert s'.cleared == s.cleared;
      hide Do, Enabled, OpenSince, Exclusive;
      OpenStaysOpen(s', rest, t, BlindAfter(a, blind));
    }
  }
}
