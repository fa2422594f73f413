/** What every schedule of the registry listing keeps, and what every successful one ends in. */
module ListingSafety {
  import opened Wrappers
  import opened RegistryListing

  /** Every image of the registry's valid tags, in the listed repositories. */
  function AllImages(world: World, repos: seq<string>): (m: multiset<Image>) {
    if repos == [] then multiset{} else
      var n := |repos| - 1;
      AllImages(world, repos[..n]) + TagImages(world, repos[n], Listed(world.tags(repos[n])))
  }

  /** The valid tags of the listed repositories. */
  function AllTags(world: World, repos: seq<string>): (n: nat) {
    if repos == [] then 0 else
      AllTags(world, repos[..|repos| - 1]) + ValidTags(world, Listed(world.tags(repos[|repos| - 1])))
  }

  lemma {:induction false} SumStart(world: World, repos: seq<string>)
    ensures Sum(world, Start(repos))
            == Tally(0, |repos|, 0, AllTags(world, repos), AllImages(world, repos), 3 * AllTags(world, repos) + 3 * |repos|)
  {
    hide ValidTags, TagImages;
    if repos != [] {
      var n := |repos| - 1;
      SumStart(world, repos[..n]);
      assert Start(repos)[..n] == Start(repos[..n]);
    }
  }

  /** The images the hooks were shown, in order. */
  function Shown(hooks: seq<Hook>): (r: seq<Image>) {
    if hooks == [] then [] else
      var last := hooks[|hooks| - 1];
      Shown(hooks[..|hooks| - 1]) + if last.TagRead? && last.image.Some? then [last.image.value] else []
  }

  /** A request is answered from the registry or fails. */
  ghost predicate Honest(world: World, w: Worker) {
    w.phase.Answered? ==> w.phase.answer.Failed? || w.phase.answer == Answers(world, w.job)
  }

  /** The books before any error: what is counted plus what the goroutines still owe is the registry. */
  ghost predicate Conserved(world: World, s: State) {
    var owed := Sum(world, s.workers);
    && s.progress.repositoriesRead + owed.repos == s.progress.repositories
    && s.progress.tagsRead + owed.describes == s.progress.tags
    && s.progress.tags + owed.spawns == AllTags(world, world.repos)
    && multiset(s.images) + owed.images == AllImages(world, world.repos)
    && s.images == Shown(s.hooks)
    && |s.hooks| == s.progress.repositoriesRead + s.progress.tagsRead
    && (s.hooks != [] ==> s.hooks[|s.hooks| - 1].progress == s.progress)
  }

  ghost predicate Inv(world: World, s: State) {
    && s.slots == Sum(world, s.workers).held <= MAX_CONCURRENT_READS
    && (forall i :: 0 <= i < |s.workers| ==> Honest(world, s.workers[i]))
    && s.progress.repositories == |world.repos|
    && s.progress.repositoriesRead <= s.progress.repositories
    && s.progress.tagsRead <= s.progress.tags
    && (s.firstErr.None? ==> Conserved(world, s))
  }

  lemma InitInv(world: World)
    ensures Inv(world, Init(world))
  {
    SumStart(world, world.repos);
    hide Sum, AllTags, AllImages;
  }

  lemma Cancel(a: multiset<Image>, b: multiset<Image>, m: multiset<Image>)
    requires a + m == b + m
    ensures a == b
  {
    forall x ensures a[x] == b[x] {
      assert (a + m)[x] == (b + m)[x];
    }
  }

  /** Taking and leaving a slot. */
  lemma SlotStep(world: World, s: State, a: Action)
    requires Inv(world, s) && Enabled(s, a) && !a.Commit?
    ensures Inv(world, Do(world, s, a))
    ensures Sum(world, Do(world, s, a).workers).steps < Sum(world, s.workers).steps
  {
    hide Sum, AllTags, AllImages, Shown, ValidTags, TagImages;
    var ws := Do(world, s, a).workers;
    SumUpdate(world, s.workers, a.w, ws[a.w]);
    Cancel(Sum(world, ws).images, Sum(world, s.workers).images, Weigh(world, ws[a.w]).images);
  }

  /** Returning, the error already set. */
  lemma LateStep(world: World, s: State, a: Action)
    requires Inv(world, s) && Enabled(s, a) && a.Commit? && s.firstErr.Some?
    ensures Inv(world, Do(world, s, a))
    ensures Sum(world, Do(world, s, a).workers).steps < Sum(world, s.workers).steps
  {
    hide Sum, AllTags, AllImages, Shown, ValidTags, TagImages;
    SumUpdate(world, s.workers, a.w, Do(world, s, a).workers[a.w]);
  }

  lemma ShownOneMore(hooks: seq<Hook>, h: Hook)
    ensures Shown(hooks + [h]) == Shown(hooks) + if h.TagRead? && h.image.Some? then [h.image.value] else []
  {
    assert (hooks + [h])[..|hooks|] == hooks;
  }

  /** A repository's tag list counted and its goroutines spawned. */
  lemma TagsStep(world: World, s: State, a: Action)
    requires Inv(world, s) && Enabled(s, a) && a.Commit? && s.firstErr.None? && s.workers[a.w].job.ReadTags?
    ensures Inv(world, Do(world, s, a))
    ensures Sum(world, Do(world, s, a).workers).steps < Sum(world, s.workers).steps
  {
    hide Sum, AllTags, AllImages, Shown, ValidTags, TagImages, Spawn;
    var w := s.workers[a.w];
    var returned := s.workers[a.w := w.(phase := Returned)];
    SumUpdate(world, s.workers, a.w, returned[a.w]);
    if w.phase.answer.Tags? {
      var tags := Listed(world.tags(w.job.repo));
      var more := Spawn(world, w.job.repo, tags);
      SumSpawn(world, w.job.repo, tags);
      SumAppend(world, returned, more);
      SpawnWaits(world, w.job.repo, tags);
      var s' := Do(world, s, a);
      ShownOneMore(s.hooks, s'.hooks[|s.hooks|]);
    }
  }

  lemma {:induction false} SpawnWaits(world: World, repo: string, tags: seq<string>)
    ensures forall i :: 0 <= i < |Spawn(world, repo, tags)| ==> Spawn(world, repo, tags)[i].phase == Waiting
  {
    if tags != [] {
      SpawnWaits(world, repo, tags[..|tags| - 1]);
    }
  }

  /** What a described tag's goroutine owed is what its return appends. */
  lemma TagBooks(world: World, ws: seq<Worker>, i: nat, images: seq<Image>)
    requires i < |ws| && ws[i].phase.Answered? && ws[i].job.Describe?
    ensures var returned := ws[i := ws[i].(phase := Returned)];
      var now, before, image := Sum(world, returned), Sum(world, ws), world.image(ws[i].job.repo, ws[i].job.tag);
      && now == before.(describes := now.describes, images := now.images, steps := now.steps)
      && now.describes + 1 == before.describes && now.steps + 1 == before.steps
      && multiset(if image.Some? then images + [image.value] else images) + now.images == multiset(images) + before.images
  {
    hide Sum;
    var returned := ws[i := ws[i].(phase := Returned)];
    SumUpdate(world, ws, i, returned[i]);
    assert Weigh(world, returned[i]) == NOTHING;
    var image := world.image(ws[i].job.repo, ws[i].job.tag);
    var shown := TagImage(world, ws[i].job.repo, ws[i].job.tag);
    assert multiset(if image.Some? then images + [image.value] else images) == multiset(images) + shown;
    assert Sum(world, returned).images + shown == Sum(world, ws).images;
  }

  /** A tag counted, its image appended. */
  lemma TagStep(world: World, s: State, a: Action)
    requires Inv(world, s) && Enabled(s, a) && a.Commit? && s.firstErr.None? && s.workers[a.w].job.Describe?
    ensures Inv(world, Do(world, s, a))
    ensures Sum(world, Do(world, s, a).workers).steps < Sum(world, s.workers).steps
  {
    hide Sum, AllTags, AllImages, Shown, Weigh, Plus, TagImage;
    var s' := Do(world, s, a);
    TagBooks(world, s.workers, a.w, s.images);
    if !s.workers[a.w].phase.answer.Failed? {
      ShownOneMore(s.hooks, s'.hooks[|s.hooks|]);
    }
  }

  /** Every step keeps the invariant, and every step uses up one of finitely many. */
  lemma StepInv(world: World, s: State, a: Action)
    requires Inv(world, s) && Enabled(s, a)
    ensures Inv(world, Do(world, s, a))
    ensures Sum(world, Do(world, s, a).workers).steps < Sum(world, s.workers).steps
  {
    hide Inv, Do, Sum;
    if !a.Commit? {
      SlotStep(world, s, a);
    } else if s.firstErr.Some? {
      LateStep(world, s, a);
    } else if s.workers[a.w].job.ReadTags? {
      TagsStep(world, s, a);
    } else {
      TagStep(world, s, a);
    }
  }
}
