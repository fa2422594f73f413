/** The concurrent registry listing: one goroutine per repository, one more per tag it finds, a
    semaphore around the requests and a lock around the results. */
module RegistryListing {
  import opened Wrappers

  /** How many requests are in flight at most. */
  const MAX_CONCURRENT_READS := 16

  datatype Image = Image(repository: string, tag: string, digest: string)

  /** A registry that does not change while it is listed; None is a repository or tag deleted since the
      catalog or the tag list was read. */
  datatype World = World(repos: seq<string>, tags: string -> Option<seq<string>>,
                         image: (string, string) -> Option<Image>, validTag: string -> bool)

  datatype Job = ReadTags(repo: string) | Describe(repo: string, tag: string)

  type Error = string

  datatype Answer = Tags(tags: Option<seq<string>>) | Described(image: Option<Image>) | Failed(error: Error)

  /** A goroutine: waiting for a slot, in its request, past it and waiting for the lock, or returned. */
  datatype Phase = Waiting | Holding | Answered(answer: Answer) | Returned

  datatype Worker = Worker(job: Job, phase: Phase)

  datatype Progress = Progress(repositories: nat, repositoriesRead: nat, tags: nat, tagsRead: nat)

  /** One call of a hook: repositoryRead, or tagRead with the tag's image if it still has one. */
  datatype Hook = RepositoryRead(progress: Progress) | TagRead(progress: Progress, image: Option<Image>)

  datatype State = State(workers: seq<Worker>, slots: nat, images: seq<Image>, progress: Progress,
                         firstErr: Option<Error>, hooks: seq<Hook>)

  /** A scheduler's choice: which goroutine moves, and whether its request or its hook fails. */
  datatype Action = Acquire(w: nat) | Reply(w: nat, fault: Option<Error>) | Commit(w: nat, fault: Option<Error>)

  function Start(repos: seq<string>): (ws: seq<Worker>)
    ensures |ws| == |repos|
  {
    seq(|repos|, i requires 0 <= i < |repos| => Worker(ReadTags(repos[i]), Waiting))
  }

  function Init(world: World): (s: State) {
    State(Start(world.repos), 0, [], Progress(|world.repos|, 0, 0, 0), None, [])
  }

  /** The goroutines of a tag list, one per valid tag. */
  function Spawn(world: World, repo: string, tags: seq<string>): (ws: seq<Worker>) {
    if tags == [] then [] else
      var n := |tags| - 1;
      Spawn(world, repo, tags[..n]) + if world.validTag(tags[n]) then [Worker(Describe(repo, tags[n]), Waiting)] else []
  }

  function Listed(tags: Option<seq<string>>): (r: seq<string>) {
    if tags.None? then [] else tags.value
  }

  predicate Enabled(s: State, a: Action) {
    && a.w < |s.workers|
    && match a
       case Acquire(w) => s.workers[w].phase == Waiting && s.slots < MAX_CONCURRENT_READS
       case Reply(w, _) => s.workers[w].phase == Holding && s.slots > 0
       case Commit(w, _) => s.workers[w].phase.Answered? && FitsJob(s.workers[w])
  }

  predicate FitsJob(w: Worker)
    requires w.phase.Answered?
  {
    w.phase.answer.Failed? || (w.job.ReadTags? <==> w.phase.answer.Tags?)
  }

  /** What the registry answers. */
  function Answers(world: World, job: Job): (r: Answer) {
    match job
    case ReadTags(repo) => Tags(world.tags(repo))
    case Describe(repo, tag) => Described(world.image(repo, tag))
  }

  /** fail: the first error stays. */
  function Fail(s: State, fault: Option<Error>): (s': State) {
    if s.firstErr.None? then s.(firstErr := fault) else s
  }

  /** The critical section of readTags. */
  function CommitTags(world: World, s: State, repo: string, answer: Answer, fault: Option<Error>): (s': State)
    requires answer.Failed? || answer.Tags?
  {
    var read := s.(progress := s.progress.(repositoriesRead := s.progress.repositoriesRead + 1));
    if answer.Failed? then Fail(read, Some(answer.error)) else
      var more := Spawn(world, repo, Listed(answer.tags));
      var p := read.progress.(tags := read.progress.tags + |more|);
      Fail(read.(workers := read.workers + more, progress := p, hooks := read.hooks + [RepositoryRead(p)]), fault)
  }

  /** The critical section of describe. */
  function CommitTag(s: State, answer: Answer, fault: Option<Error>): (s': State)
    requires answer.Failed? || answer.Described?
  {
    var p := s.progress.(tagsRead := s.progress.tagsRead + 1);
    var read := s.(progress := p);
    if answer.Failed? then Fail(read, Some(answer.error)) else
      var images := if answer.image.Some? then read.images + [answer.image.value] else read.images;
      Fail(read.(images := images, hooks := read.hooks + [TagRead(p, answer.image)]), fault)
  }

  function Do(world: World, s: State, a: Action): (s': State)
    requires Enabled(s, a)
  {
    var worker := s.workers[a.w];
    match a
    case Acquire(w) => s.(workers := s.workers[w := worker.(phase := Holding)], slots := s.slots + 1)
    case Reply(w, fault) =>
      var answer := if fault.Some? then Failed(fault.value) else Answers(world, worker.job);
      s.(workers := s.workers[w := worker.(phase := Answered(answer))], slots := s.slots - 1)
    case Commit(w, fault) =>
      var s1 := s.(workers := s.workers[w := worker.(phase := Returned)]);
      if s.firstErr.Some? then s1
      else if worker.job.ReadTags? then CommitTags(world, s1, worker.job.repo, worker.phase.answer, fault)
      else CommitTag(s1, worker.phase.answer, fault)
  }

  /** A schedule is possible when each of its actions is enabled in turn. */
  ghost predicate Possible(world: World, s: State, run: seq<Action>)
    decreases |run|
  {
    run == [] || (Enabled(s, run[0]) && Possible(world, Do(world, s, run[0]), run[1..]))
  }

  function Run(world: World, s: State, run: seq<Action>): (s': State)
    requires Possible(world, s, run)
    decreases |run|
  {
    if run == [] then s else Run(world, Do(world, s, run[0]), run[1..])
  }

  /** wg.Wait has returned: no goroutine is left. */
  predicate Finished(s: State) {
    forall i :: 0 <= i < |s.workers| ==> s.workers[i].phase == Returned
  }

  // ----- tallies over the goroutines -----

  /** What a set of goroutines holds and still owes: slots held, repositories and tags to count, tags to
      spawn, images to append, and steps to take. */
  datatype Tally = Tally(held: nat, repos: nat, describes: nat, spawns: nat, images: multiset<Image>, steps: nat)

  function Plus(t: Tally, u: Tally): (v: Tally) {
    Tally(t.held + u.held, t.repos + u.repos, t.describes + u.describes, t.spawns + u.spawns,
          t.images + u.images, t.steps + u.steps)
  }

  lemma PlusSwap(a: Tally, b: Tally, c: Tally)
    ensures Plus(Plus(a, b), c) == Plus(Plus(a, c), b)
    ensures Plus(Plus(a, b), c) == Plus(a, Plus(b, c))
  {
    assert a.images + b.images + c.images == a.images + c.images + b.images == a.images + (b.images + c.images);
  }

  lemma PlusNothing(a: Tally)
    ensures Plus(a, NOTHING) == a == Plus(NOTHING, a)
  {
    assert a.images + multiset{} == a.images == multiset{} + a.images;
  }

  const NOTHING := Tally(0, 0, 0, 0, multiset{}, 0)

  function TagImage(world: World, repo: string, tag: string): (m: multiset<Image>) {
    if world.image(repo, tag).Some? then multiset{world.image(repo, tag).value} else multiset{}
  }

  function ValidTags(world: World, tags: seq<string>): (n: nat) {
    if tags == [] then 0 else ValidTags(world, tags[..|tags| - 1]) + if world.validTag(tags[|tags| - 1]) then 1 else 0
  }

  function TagImages(world: World, repo: string, tags: seq<string>): (m: multiset<Image>) {
    if tags == [] then multiset{} else
      var n := |tags| - 1;
      TagImages(world, repo, tags[..n]) + if world.validTag(tags[n]) then TagImage(world, repo, tags[n]) else multiset{}
  }

  function Left(phase: Phase): (n: nat) {
    match phase
    case Waiting => 3
    case Holding => 2
    case Answered(_) => 1
    case Returned => 0
  }

  function Weigh(world: World, w: Worker): (t: Tally) {
    if w.phase == Returned then NOTHING else
      var held := if w.phase == Holding then 1 else 0;
      match w.job
      case ReadTags(repo) =>
        var tags := Listed(world.tags(repo));
        var n := ValidTags(world, tags);
        Tally(held, 1, 0, n, TagImages(world, repo, tags), 3 * n + Left(w.phase))
      case Describe(repo, tag) =>
        Tally(held, 0, 1, 0, TagImage(world, repo, tag), Left(w.phase))
  }

  function Sum(world: World, ws: seq<Worker>): (t: Tally) {
    if ws == [] then NOTHING else Plus(Sum(world, ws[..|ws| - 1]), Weigh(world, ws[|ws| - 1]))
  }

  lemma {:induction false} SumUpdate(world: World, ws: seq<Worker>, i: nat, w: Worker)
    requires i < |ws|
    ensures Plus(Sum(world, ws[i := w]), Weigh(world, ws[i])) == Plus(Sum(world, ws), Weigh(world, w))
  {
    hide Weigh, Plus;
    var n := |ws| - 1;
    PlusSwap(Sum(world, ws[..n]), Weigh(world, ws[n]), Weigh(world, w));
    if i == n {
      assert ws[i := w][..n] == ws[..n];
    } else {
      SumUpdate(world, ws[..n], i, w);
      assert ws[i := w][..n] == ws[..n][i := w];
      PlusSwap(Sum(world, ws[..n][i := w]), Weigh(world, ws[n]), Weigh(world, ws[i]));
    }
  }

  lemma {:induction false} SumAppend(world: World, ws: seq<Worker>, more: seq<Worker>)
    ensures Sum(world, ws + more) == Plus(Sum(world, ws), Sum(world, more))
  {
    hide Weigh, Plus;
    if more == [] {
      assert ws + more == ws;
      PlusNothing(Sum(world, ws));
    } else {
      var n := |more| - 1;
      SumAppend(world, ws, more[..n]);
      assert (ws + more)[..|ws + more| - 1] == ws + more[..n];
      PlusSwap(Sum(world, ws), Sum(world, more[..n]), Weigh(world, more[n]));
    }
  }

  lemma SumOne(world: World, w: Worker)
    ensures Sum(world, [w]) == Weigh(world, w)
  {
    hide Weigh;
    assert [w][..0] == [];
    PlusNothing(Weigh(world, w));
  }

  /** A tag list's goroutines owe exactly what the repository's own owed. */
  lemma {:induction false} SumSpawn(world: World, repo: string, tags: seq<string>)
    ensures |Spawn(world, repo, tags)| == ValidTags(world, tags)
    ensures Sum(world, Spawn(world, repo, tags))
            == Tally(0, 0, ValidTags(world, tags), 0, TagImages(world, repo, tags), 3 * ValidTags(world, tags))
  {
    hide Sum;
    if tags == [] {
      SumReturned(world, []);
    } else {
      var n := |tags| - 1;
      var before := Spawn(world, repo, tags[..n]);
      SumSpawn(world, repo, tags[..n]);
      if world.validTag(tags[n]) {
        var w := Worker(Describe(repo, tags[n]), Waiting);
        SumAppend(world, before, [w]);
        SumOne(world, w);
      } else {
        assert Spawn(world, repo, tags) == before;
      }
    }
  }

  lemma {:induction false} SumReturned(world: World, ws: seq<Worker>)
    requires forall i :: 0 <= i < |ws| ==> ws[i].phase == Returned
    ensures Sum(world, ws) == NOTHING
  {
    hide Plus;
    if ws != [] {
      SumReturned(world, ws[..|ws| - 1]);
      PlusNothing(NOTHING);
    }
  }
}
