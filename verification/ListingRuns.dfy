/** The listing over whole schedules: bounded concurrency, no hook after the first error, an end to every
    schedule, and one report whatever the schedule. */
module ListingRuns {
  import opened Wrappers
  import opened RegistryListing
  import opened ListingSafety

  lemma {:induction false} RunInv(world: World, s: State, run: seq<Action>)
    requires Inv(world, s) && Possible(world, s, run)
    ensures Inv(world, Run(world, s, run))
    ensures |run| + Sum(world, Run(world, s, run).workers).steps <= Sum(world, s.workers).steps
    decreases |run|
  {
    hide Inv, Do, Sum;
    if run != [] {
      StepInv(world, s, run[0]);
      RunInv(world, Do(world, s, run[0]), run[1..]);
    }
  }

  /** The goroutines inside a request. */
  function Holders(ws: seq<Worker>): (r: set<nat>) {
    set i: nat | i < |ws| && ws[i].phase == Holding
  }

  lemma HeldByOne(world: World, w: Worker)
    ensures Weigh(world, w).held == if w.phase == Holding then 1 else 0
  {
  }

  lemma {:induction false} HoldersCounted(world: World, ws: seq<Worker>)
    ensures |Holders(ws)| == Sum(world, ws).held
  {
    hide Weigh;
    if ws == [] {
      assert Holders(ws) == {};
    } else {
      var n := |ws| - 1;
      HoldersCounted(world, ws[..n]);
      HeldByOne(world, ws[n]);
      forall i: nat ensures i in Holders(ws) <==> i in Holders(ws[..n]) || (i == n && ws[n].phase == Holding) {
      }
      if ws[n].phase == Holding {
        assert Holders(ws) == Holders(ws[..n]) + {n};
      } else {
        assert Holders(ws) == Holders(ws[..n]);
      }
    }
  }

  /** In every schedule at most MAX_CONCURRENT_READS goroutines are in a request, and the counters never
      exceed their totals. */
  lemma ReadsAreBounded(world: World, run: seq<Action>)
    requires Possible(world, Init(world), run)
    ensures var s := Run(world, Init(world), run);
      && |Holders(s.workers)| <= MAX_CONCURRENT_READS
      && s.progress.repositoriesRead <= s.progress.repositories == |world.repos|
      && s.progress.tagsRead <= s.progress.tags
  {
    InitInv(world);
    RunInv(world, Init(world), run);
    HoldersCounted(world, Run(world, Init(world), run).workers);
    hide Sum, Run, Conserved;
  }

  /** Once an error is set it stays, and no schedule calls a hook, counts or appends after it. */
  lemma {:induction false} FirstErrorIsFinal(world: World, s: State, run: seq<Action>)
    requires s.firstErr.Some? && Possible(world, s, run)
    ensures var s' := Run(world, s, run);
      s'.firstErr == s.firstErr && s'.hooks == s.hooks && s'.images == s.images && s'.progress == s.progress
    decreases |run|
  {
    if run != [] {
      FirstErrorIsFinal(world, Do(world, s, run[0]), run[1..]);
    }
  }

  predicate Faulty(a: Action) {
    !a.Acquire? && a.fault.Some?
  }

  /** The errors a goroutine carries or the listing reports. */
  ghost predicate Blamed(s: State, e: Error) {
    || s.firstErr == Some(e)
    || exists i :: 0 <= i < |s.workers| && s.workers[i].phase == Answered(Failed(e))
  }

  lemma StepBlames(world: World, s: State, a: Action, e: Error)
    requires Enabled(s, a) && Blamed(Do(world, s, a), e) && !Blamed(s, e)
    ensures Faulty(a) && a.fault.value == e
  {
    var s' := Do(world, s, a);
    if s'.firstErr != Some(e) {
      var i :| 0 <= i < |s'.workers| && s'.workers[i].phase == Answered(Failed(e));
      if i >= |s.workers| && s.workers[a.w].job.ReadTags? {
        SpawnWaits(world, s.workers[a.w].job.repo, Listed(s.workers[a.w].phase.answer.tags));
      }
    }
  }

  /** A listing fails only with the error of a request or a hook that failed. */
  lemma {:induction false} ErrorsAreFaults(world: World, s: State, run: seq<Action>, e: Error)
    requires Possible(world, s, run) && Blamed(Run(world, s, run), e) && !Blamed(s, e)
    ensures exists i :: 0 <= i < |run| && Faulty(run[i]) && run[i].fault.value == e
    decreases |run|
  {
    hide Do, Blamed;
    assert run != [];
    var s' := Do(world, s, run[0]);
    if Blamed(s', e) {
      StepBlames(world, s, run[0], e);
    } else {
      ErrorsAreFaults(world, s', run[1..], e);
      var i :| 0 <= i < |run[1..]| && Faulty(run[1..][i]) && run[1..][i].fault.value == e;
      assert run[i + 1] == run[1..][i];
    }
  }

  /** The faults of a schedule as its actions tell them: the request errors not yet committed, and the first
      error committed. */
  datatype Ledger = Ledger(pending: map<nat, Error>, first: Option<Error>)

  function Note(l: Ledger, a: Action): (l': Ledger) {
    match a
    case Acquire(_) => l
    case Reply(w, fault) => if fault.Some? then l.(pending := l.pending[w := fault.value]) else l
    case Commit(w, fault) =>
      if l.first.Some? then l else l.(first := if w in l.pending then Some(l.pending[w]) else fault)
  }

  function Tell(l: Ledger, run: seq<Action>): (l': Ledger)
    decreases |run|
  {
    if run == [] then l else Tell(Note(l, run[0]), run[1..])
  }

  /** A goroutine carries an error exactly when its request failed. */
  ghost predicate Carries(l: Ledger, i: nat, w: Worker) {
    match w.phase
    case Answered(answer) => if i in l.pending then answer == Failed(l.pending[i]) else !answer.Failed?
    case Returned => true
    case _ => i !in l.pending
  }

  ghost predicate Fits(s: State, l: Ledger) {
    && s.firstErr == l.first
    && (forall i :: i in l.pending ==> i < |s.workers|)
    && (forall i :: 0 <= i < |s.workers| ==> Carries(l, i, s.workers[i]))
  }

  lemma StepTells(world: World, s: State, a: Action, l: Ledger)
    requires Enabled(s, a) && Fits(s, l)
    ensures Fits(Do(world, s, a), Note(l, a))
  {
    var worker, s' := s.workers[a.w], Do(world, s, a);
    assert Carries(l, a.w, worker);
    if a.Commit? && s.firstErr.None? && worker.job.ReadTags? && worker.phase.answer.Tags? {
      var more := Spawn(world, worker.job.repo, Listed(worker.phase.answer.tags));
      SpawnWaits(world, worker.job.repo, Listed(worker.phase.answer.tags));
      hide Spawn;
      forall i | |s.workers| <= i < |s'.workers| ensures s'.workers[i].phase == Waiting {
        assert s'.workers[i] == more[i - |s.workers|];
      }
    }
  }

  lemma {:induction false} RunTells(world: World, s: State, run: seq<Action>, l: Ledger)
    requires Possible(world, s, run) && Fits(s, l)
    ensures Fits(Run(world, s, run), Tell(l, run))
    decreases |run|
  {
    hide Do, Fits, Note;
    if run != [] {
      StepTells(world, s, run[0], l);
      RunTells(world, Do(world, s, run[0]), run[1..], Note(l, run[0]));
    }
  }

  /** In every schedule the listing's error is the first that a goroutine committed: its request's, or else
      its hook's. */
  lemma FirstFaultIsReported(world: World, run: seq<Action>)
    requires Possible(world, Init(world), run)
    ensures Run(world, Init(world), run).firstErr == Tell(Ledger(map[], None), run).first
  {
    RunTells(world, Init(world), run, Ledger(map[], None));
  }

  /** No schedule runs longer than three steps for each repository and each valid tag. */
  lemma EveryScheduleEnds(world: World, run: seq<Action>)
    requires Possible(world, Init(world), run)
    ensures |run| <= 3 * |world.repos| + 3 * AllTags(world, world.repos)
  {
    InitInv(world);
    RunInv(world, Init(world), run);
    SumStart(world, world.repos);
  }

  /** No schedule gets stuck: while a goroutine is left some goroutine can move, whatever fails next. */
  lemma NeverStuck(world: World, s: State)
    requires Inv(world, s) && !Finished(s)
    ensures exists a :: Enabled(s, a)
  {
    var i :| 0 <= i < |s.workers| && s.workers[i].phase != Returned;
    HoldersCounted(world, s.workers);
    hide Sum, Conserved;
    if j :| j in Holders(s.workers) {
      assert s.slots > 0;
      assert Enabled(s, Reply(j, None));
    } else {
      assert Holders(s.workers) == {} && i !in Holders(s.workers);
      assert Honest(world, s.workers[i]);
      assert Enabled(s, if s.workers[i].phase == Waiting then Acquire(i) else Commit(i, None));
    }
  }

  /** A schedule that ends without an error has counted every repository and every valid tag, appended
      exactly the registry's images, and shown each to the hooks. */
  lemma SuccessIsComplete(world: World, run: seq<Action>)
    requires Possible(world, Init(world), run)
    requires Finished(Run(world, Init(world), run)) && Run(world, Init(world), run).firstErr.None?
    ensures var s := Run(world, Init(world), run);
      && s.progress == Progress(|world.repos|, |world.repos|, AllTags(world, world.repos), AllTags(world, world.repos))
      && multiset(s.images) == AllImages(world, world.repos)
      && s.images == Shown(s.hooks)
      && |s.hooks| == |world.repos| + AllTags(world, world.repos)
      && (s.hooks != [] ==> s.hooks[|s.hooks| - 1].progress == s.progress)
  {
    InitInv(world);
    RunInv(world, Init(world), run);
    var s := Run(world, Init(world), run);
    SumReturned(world, s.workers);
    assert multiset(s.images) + multiset{} == multiset(s.images);
    hide Sum, Run, AllTags, AllImages, Shown;
  }
}
