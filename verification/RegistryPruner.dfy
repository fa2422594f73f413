/** pruneRegistry as it runs: loops over repositories and their planned manifests, with the rest of the
    world changing the registry before every read and every request. */
module RegistryPruner {
  import opened Wrappers
  import opened PrunePlan
  import opened RegistryPrune
  import opened PruneFates

  /** What an undisturbed read finds. */
  predicate ReadsTo(g: Registry, repo: string, read: Reading) {
    if repo !in g then read == Absent
    else if g[repo].Damaged? then read == Broken
    else
      && IndexReads(g, repo, read)
      && (Readable(read.view) <==> Held(g[repo].rows) <= g[repo].times.Keys)
      && forall d :: d in read.view.times ==> d in g[repo].times && read.view.times[d] == g[repo].times[d]
  }

  /** Adding the plan of a repository not seen before keeps both lists free of repeats. */
  lemma NewStayDistinct(planned: seq<Manifest>, listed: seq<KeptManifest>, repo: string, plan: Plan, seen: seq<string>)
    requires Distinct(planned + ManifestsOf(listed)) && (forall m :: m in planned + ManifestsOf(listed) ==> m.repository in seen) && repo !in seen
    requires AllNew(repo, InRepository(repo, plan.delete) + ManifestsOf(Reported(repo, plan.kept)))
    ensures var planned', listed' := planned + InRepository(repo, plan.delete), listed + Reported(repo, plan.kept);
      && Distinct(planned' + ManifestsOf(listed'))
      && forall m :: m in planned' + ManifestsOf(listed') ==> m.repository in seen || m.repository == repo
  {
    var ps, ls := InRepository(repo, plan.delete), ManifestsOf(Reported(repo, plan.kept));
    assert ManifestsOf(listed + Reported(repo, plan.kept)) == ManifestsOf(listed) + ls;
    assert planned + ps + (ManifestsOf(listed) + ls) == planned + ps + ManifestsOf(listed) + ls;
    hide ManifestsOf, InRepository;
    DistinctSwap(planned, ps, ManifestsOf(listed), ls);
  }

  lemma NoPlans()
    ensures RepositoriesOf([]) == [] && ToDelete([]) == [] && ToKeep([]) == [] && ManifestsOf([]) == []
  {
  }

  lemma DistinctSwap(a: seq<Manifest>, b: seq<Manifest>, c: seq<Manifest>, d: seq<Manifest>)
    requires Distinct(a + c) && Distinct(b + d) && forall x :: x in a + c ==> x !in b + d
    ensures Distinct(a + b + c + d)
  {
    forall x ensures multiset(a + b + c + d)[x] <= 1 {
      DistinctCounts(a + c, x);
      DistinctCounts(b + d, x);
    }
    CountsDistinct(a + b + c + d);
  }

  lemma CountsDistinct(s: seq<Manifest>)
    requires forall x :: multiset(s)[x] <= 1
    ensures Distinct(s)
  {
    forall i, j | 0 <= i < j < |s| ensures s[i] != s[j] {
      assert s == s[..j] + s[j..];
      assert multiset(s)[s[j]] == multiset(s[..j])[s[j]] + multiset(s[j..])[s[j]];
      assert s[j] in s[j..] && s[i] in s[..j];
    }
  }

  lemma {:induction false} DistinctCounts<T>(s: seq<T>, x: T)
    requires Distinct(s)
    ensures multiset(s)[x] == if x in s then 1 else 0
  {
    if s != [] {
      var n := |s| - 1;
      assert s == s[..n] + [s[n]];
      DistinctCounts(s[..n], x);
    }
  }

  /** Manifests of one repository, each once. */
  ghost predicate AllNew(repo: string, ms: seq<Manifest>) {
    Distinct(ms) && forall m :: m in ms ==> m.repository == repo
  }

  lemma PlanIsNew(content: Content, now: int, p: Planning)
    requires if p.read.Seen? then PlanOf(content, p.read.view, now, p.plan) else p.plan == Plan([], [])
    ensures AllNew(p.repository, InRepository(p.repository, p.plan.delete) + ManifestsOf(Reported(p.repository, p.plan.kept)))
  {
    hide PlanOf;
    var digests := p.plan.delete + Names(p.plan.kept);
    if p.read.Seen? {
      PlanIsDisjoint(content, p.read.view, now, p.plan);
    }
    assert InRepository(p.repository, p.plan.delete) + InRepository(p.repository, Names(p.plan.kept)) == InRepository(p.repository, digests);
  }

  /** An undisturbed read of a readable repository leads to its plan. */
  lemma ReadPlans(content: Content, now: int, g: Registry, p: Planning)
    requires p.repository in g && Whole(g[p.repository]) && ReadsTo(g, p.repository, p.read) && PlanOf(content, p.read.view, now, p.plan)
    ensures p.plan.delete == PlannedIn(content, now, g[p.repository])
  {
    hide DeleteList, Doomed, Order, Select, TaggedSet, Justified;
    SameDeleteList(content, View(g[p.repository].rows, g[p.repository].times), p.read.view, now);
  }

  /** Every listed repository is there and can be read completely. */
  ghost predicate AllWhole(g: Registry, repos: seq<string>) {
    forall r :: r in repos ==> r in g && g[r].Repository? && Whole(g[r])
  }

  /** The plans of the listed repositories, one after another. */
  ghost function AllPlanned(content: Content, now: int, g: Registry, repos: seq<string>): (r: seq<Manifest>)
    requires AllWhole(g, repos)
  {
    if repos == [] then [] else
      var n := |repos| - 1;
      AllPlanned(content, now, g, repos[..n]) + InRepository(repos[n], PlannedIn(content, now, g[repos[n]]))
  }

  /** The refusals of an undisturbed forced prune. */
  ghost function AllRefusals(content: Content, now: int, g: Registry, repos: seq<string>): (r: nat)
    requires AllWhole(g, repos)
  {
    if repos == [] then 0 else
      var repo := g[repos[|repos| - 1]];
      AllRefusals(content, now, g, repos[..|repos| - 1]) + Refusals(content, repo.rows, PlannedIn(content, now, repo))
  }

  /** It reports no failure exactly when no repository plans a manifest before an index that names it. */
  lemma {:induction false} CleanPruneIffParentsFirst(content: Content, now: int, g: Registry, repos: seq<string>)
    requires AllWhole(g, repos)
    ensures AllRefusals(content, now, g, repos) == 0 <==>
            forall r :: r in repos ==> ParentsFirst(content, g[r].rows, PlannedIn(content, now, g[r]))
  {
    hide ParentsFirst, Refusals, DeleteList, Whole;
    if repos != [] {
      var n := |repos| - 1;
      var repo := g[repos[n]];
      assert repos == repos[..n] + [repos[n]];
      CleanPruneIffParentsFirst(content, now, g, repos[..n]);
      NoneRefused(content, now, View(repo.rows, repo.times), PlannedIn(content, now, repo));
    }
  }

  /** A re-check that nothing disturbs agrees with the plan. */
  lemma ReadyIsCleared(content: Content, now: int, g: Registry, m: Manifest, c: Check)
    requires Ready(content, now, g, m) && ReadsTo(g, m.repository, c.read) && Verdict(content, now, c.read, m.digest, c.why)
    ensures c.why == None && c.read.Seen? && c.read.view.rows == g[m.repository].rows
  {
    hide Needed, Justified;
    var v := View(g[m.repository].rows, g[m.repository].times);
    DoomedHeld(content, v, now);
    if Needed(content, c.read.view, now, m.digest) {
      NeededShrinks(content, v, c.read.view, now, m.digest);
    }
  }

  /** What a sound re-check lets go its fresh plan deletes. */
  lemma ClearedView(content: Content, now: int, start: Registry, run: seq<Move>, c: Check)
    requires SoundCheck(content, now, start, run, c)
    ensures c.why == None ==> c.read.Seen? && Readable(c.read.view) && c.manifest.digest in Doomed(content, c.read.view, now)
    ensures Verdict(content, now, c.read, c.manifest.digest, c.why)
  {
  }

  /** The plan's word on an untagged or absent digest. */
  method Look(content: Content, now: int, v: View, plan: Plan, d: Digest) returns (why: Option<KeepReason>)
    requires PlanOf(content, v, now, plan)
    ensures Verdict(content, now, Seen(v), d, why)
  {
    hide Doomed, Held, TaggedSet, Order, Justified, Select;
    DeleteListIsDoomed(content, v, now);
    DoomedHeld(content, v, now);
    if d !in Held(v.rows) {
      return Some(GoneSincePlan);
    }
    if d in TaggedSet(v.rows) {
      return Some(TaggedSincePlan);
    }
    if d in plan.delete {
      return None;
    }
    assert d in Names(plan.kept);
    for i := 0 to |plan.kept|
      invariant forall k :: 0 <= k < i ==> plan.kept[k].digest != d
    {
      if plan.kept[i].digest == d {
        return Some(plan.kept[i].reason);
      }
    }
    assert false;
    why := Some(Unreadable);
  }

  class RegistryPruner {
    const content: Content
    const now: int
    const force: bool
    /** What other clients do before the prune's next operation. */
    const others: (nat, Registry) -> Registry
    /** What the network does to the prune's next request. */
    const network: nat -> Delivery
    var registry: Registry
    var clock: nat
    var manifests: seq<Manifest>
    var kept: seq<KeptManifest>
    var failed: seq<Manifest>
    var unreadable: seq<string>
    ghost const start: Registry
    ghost var run: seq<Move>
    ghost var plans: seq<Planning>
    ghost var checks: seq<Check>
    ghost var planned: seq<Manifest>
    ghost var listed: seq<KeptManifest>

    constructor (content: Content, now: int, force: bool, others: (nat, Registry) -> Registry, network: nat -> Delivery, registry: Registry)
      ensures Valid() && this.registry == registry == start && this.force == force && this.content == content && this.now == now
      ensures plans == [] && planned == [] && listed == [] && unreadable == [] && manifests == [] && kept == [] && failed == []
    {
      this.content, this.now, this.force, this.others, this.network := content, now, force, others, network;
      this.registry, start, run, clock := registry, registry, [], 0;
      manifests, kept, failed, unreadable, plans, checks, planned, listed := [], [], [], [], [], [], [], [];
    }

    /** The registry is what the recorded run makes of its start, every deletion in the run was safe at
        its instant, and a dry run asked for none. */
    ghost predicate Traced()
      reads this`registry, this`run
    {
      && registry == Replay(content, start, run)
      && SafeRun(content, now, start, run)
      && (!force ==> forall i :: 0 <= i < |run| ==> run[i].Other?)
    }

    /** Every plan and re-check judged what the registry held when it read. */
    ghost predicate Informed()
      reads this`run, this`plans, this`checks
    {
      Sighted(content, now, start, run, plans, checks)
    }

    /** The report says what became of every planned manifest. */
    ghost predicate Accounted()
      reads this`run, this`checks, this`planned, this`listed, this`manifests, this`kept, this`failed
    {
      Faithful(force, planned, listed, checks, Requests(content, start, run), Report(manifests, kept, failed))
    }

    ghost predicate Valid()
      reads this
    {
      Traced() && Informed() && Accounted() && Noted(unreadable, plans, checks)
    }

    /** No other client writes and every request is answered. */
    ghost predicate Alone() {
      (forall n, g :: others(n, g) == g) && (forall n :: network(n) == Delivered)
    }

    /** Anything may happen to the registry here. */
    method Interfere()
      requires Traced() && Informed()
      modifies this`registry, this`clock, this`run
      ensures Traced() && Informed() && run == old(run) + [Other(registry)]
      ensures Requests(content, start, run) == old(Requests(content, start, run))
      ensures Alone() ==> registry == old(registry)
    {
      hide Replay, SafeRun, Sighted, Requests;
      registry := others(clock, registry);
      clock := clock + 1;
      RunGoesOn(content, now, start, run, plans, checks, Other(registry));
      run := run + [Other(registry)];
    }

    /** The planner's read: the index once, then each manifest, others writing in between. */
    method Read(repo: string) returns (read: Reading, ghost at: nat)
      requires Traced() && Informed()
      modifies this`registry, this`clock, this`run
      ensures Traced() && Informed() && Requests(content, start, run) == old(Requests(content, start, run))
      ensures at == |old(run)| + 1 && old(run) <= run && ReadAfter(content, start, run, at, repo, read)
      ensures Alone() ==> registry == old(registry) && ReadsTo(registry, repo, read)
    {
      hide Informed, Held, Replay, SafeRun, Requests;
      Interfere();
      at := |run|;
      ghost var before := run;
      assert run[..at] == run;
      if repo !in registry {
        return Absent, at;
      }
      if registry[repo].Damaged? {
        return Broken, at;
      }
      var rows, times := registry[repo].rows, map[];
      ghost var g := registry;
      var order, _ := ReadRows(rows);
      for i := 0 to |order|
        invariant Traced() && Informed() && Requests(content, start, run) == old(Requests(content, start, run))
        invariant before <= run
        invariant Alone() ==> registry == old(registry) == g
        invariant Alone() ==> forall d :: d in times ==> d in registry[repo].times && times[d] == registry[repo].times[d]
        invariant forall d :: d in order[..i] ==> d in times
      {
        Interfere();
        var d := order[i];
        if repo !in registry || registry[repo].Damaged? || d !in registry[repo].times {
          assert Alone() ==> !(Held(rows) <= registry[repo].times.Keys);
          assert Alone() ==> !Readable(View(rows, times));
          assert run[..at] == before;
          return Seen(View(rows, times)), at;
        }
        times := times[d := registry[repo].times[d]];
        assert order[..i + 1] == order[..i] + [d];
      }
      assert order[..|order|] == order;
      assert run[..at] == before;
      read := Seen(View(rows, times));
    }

    /** Recheck: plan the repository afresh and look the manifest up in it. */
    method Recheck(m: Manifest) returns (why: Option<KeepReason>, view: View, ghost c: Check)
      requires Traced() && Informed()
      modifies this`registry, this`clock, this`run
      ensures Traced() && Informed() && Requests(content, start, run) == old(Requests(content, start, run))
      ensures SoundCheck(content, now, start, run, c) && c.manifest == m && c.why == why && (why == None ==> c.read == Seen(view))
      ensures Alone() ==> registry == old(registry) && ReadsTo(registry, m.repository, c.read)
    {
      hide Traced, Informed, ReadsTo, ReadAfter, Requests;
      view := View([], map[]);
      var read, at := Read(m.repository);
      match read {
        case Absent => why := Some(GoneSincePlan);
        case Broken => why := Some(Unreadable);
        case Seen(v) =>
          view := v;
          var plan := PlanRepository(content, v, now);
          why := Look(content, now, v, plan, m.digest);
      }
      c := Check(m, at, read, why);
    }

    /** The conditional DELETE, on a registry others may have changed since the re-check. The caller learns
        the registry's answer if the request was delivered, and otherwise an error. */
    method Request(m: Manifest, view: View) returns (reply: Reply, ghost q: PruneFates.Request)
      requires Traced() && Informed() && force
      requires Readable(view) && m.digest in Doomed(content, view, now)
      modifies this`registry, this`clock, this`run
      ensures Traced() && Informed()
      ensures Requests(content, start, run) == old(Requests(content, start, run)) + [q] && q.manifest == m && q.view == view
      ensures reply == if q.delivery == Delivered then q.reply else Refused
      ensures Alone() ==> reply == Serve(content, old(registry), m, view.rows) && registry == Served(content, old(registry), m, view.rows)
    {
      hide Replay, SafeRun, Serve, Served, Doomed, Readable, Sighted, Requests;
      Interfere();
      var delivery := network(clock);
      ghost var mv := Ask(m, view, delivery);
      RunGoesOn(content, now, start, run, plans, checks, mv);
      q := RequestOf(content, registry, mv);
      clock, run := clock + 1, run + [mv];
      if delivery == NotSent {
        return Refused, q;
      }
      reply := Serve(content, registry, m, view.rows);
      registry := Served(content, registry, m, view.rows);
      if delivery == ReplyLost {
        reply := Refused;
      }
    }

    /** One planned manifest: listed by a dry run; re-checked, then kept, deleted or failed by a forced one. */
    method PruneManifest(m: Manifest) returns (bad: bool)
      requires Valid()
      modifies this
      ensures Valid() && planned == old(planned) + [m] && listed == old(listed) && plans == old(plans)
      ensures |failed| == old(|failed|) + if bad then 1 else 0
      ensures unreadable == old(unreadable) || (m.repository !in old(unreadable) && unreadable == old(unreadable) + [m.repository])
      ensures !force ==> registry == old(registry)
      ensures Alone() && force && Ready(content, now, old(registry), m) ==>
                && registry == Served(content, old(registry), m, old(registry)[m.repository].rows)
                && (bad <==> NamedByIndex(content, old(registry)[m.repository].rows, m.digest))
    {
      hide Traced, Informed, Noted, Ready, Served, Alone, Faithful, Requests;
      if !force {
        DryMore(planned, listed, checks, Requests(content, start, run), Report(manifests, kept, failed), m);
        planned, manifests := planned + [m], manifests + [m];
        return false;
      }
      bad := RecheckAndDelete(m);
    }

    /** The forced half: re-check, then ask for what the re-check lets go. */
    method RecheckAndDelete(m: Manifest) returns (bad: bool)
      requires Valid() && force
      modifies this`registry, this`clock, this`run, this`checks, this`planned, this`manifests, this`failed, this`kept, this`unreadable
      ensures Valid() && planned == old(planned) + [m]
      ensures |failed| == old(|failed|) + if bad then 1 else 0
      ensures unreadable == old(unreadable) || (m.repository !in old(unreadable) && unreadable == old(unreadable) + [m.repository])
      ensures Alone() && Ready(content, now, old(registry), m) ==>
                && registry == Served(content, old(registry), m, old(registry)[m.repository].rows)
                && (bad <==> NamedByIndex(content, old(registry)[m.repository].rows, m.digest))
    {
      hide Traced, Sighted, Ready, Served, Serve, ReadsTo, Doomed, Alone, Faithful, Requests, Noted, SoundCheck, Verdict, Readable, NamedByIndex;
      bad := false;
      var why, view, c := Recheck(m);
      ClearedView(content, now, start, run, c);
      if Alone() && Ready(content, now, registry, m) {
        ReadyIsCleared(content, now, registry, m, c);
        ReadyServes(content, now, registry, m);
      }
      if why.Some? {
        Spare(m, why.value, c);
      } else {
        bad := Delete(m, view, c);
      }
    }

    /** A re-check's reason: the manifest is kept with it. */
    method Spare(m: Manifest, why: KeepReason, ghost c: Check)
      requires Valid() && force && SoundCheck(content, now, start, run, c) && c.manifest == m && c.why == Some(why)
      modifies this`checks, this`planned, this`kept, this`unreadable
      ensures Valid() && planned == old(planned) + [m]
      ensures unreadable == old(unreadable) || (m.repository !in old(unreadable) && unreadable == old(unreadable) + [m.repository])
    {
      hide Traced, Faithful, Requests, Noted, SoundCheck, SoundPlanning;
      SpareMore(planned, listed, checks, Requests(content, start, run), Report(manifests, kept, failed), c);
      NotedCheck(unreadable, plans, checks, c);
      checks, planned, kept := checks + [c], planned + [m], kept + [KeptManifest(m, why)];
      if why == Unreadable && m.repository !in unreadable {
        unreadable := unreadable + [m.repository];
      }
    }

    /** The registry's answer: deleted, kept as changed since the plan, or failed. */
    method Delete(m: Manifest, view: View, ghost c: Check) returns (bad: bool)
      requires Valid() && force && SoundCheck(content, now, start, run, c) && c.manifest == m && c.why == None && c.read == Seen(view)
      requires Readable(view) && m.digest in Doomed(content, view, now)
      modifies this`registry, this`clock, this`run, this`checks, this`planned, this`manifests, this`failed, this`kept
      ensures Valid() && planned == old(planned) + [m]
      ensures |failed| == old(|failed|) + if bad then 1 else 0
      ensures Alone() ==> registry == Served(content, old(registry), m, view.rows) && (bad <==> Serve(content, old(registry), m, view.rows) == Refused)
    {
      hide Traced, Served, Serve, Doomed, Readable, Alone, Faithful, Requests, Noted, SoundCheck, SoundPlanning;
      ghost var told, qs := Report(manifests, kept, failed), Requests(content, start, run);
      NotedCheck(unreadable, plans, checks, c);
      checks, planned, bad := checks + [c], planned + [m], false;
      var reply, q := Request(m, view);
      AskMore(old(planned), listed, old(checks), qs, told, c, q);
      match reply {
        case Changed => kept := kept + [KeptManifest(m, ChangedSincePlan)];
        case Refused => failed, bad := failed + [m], true;
        case Accepted => manifests := manifests + [m];
      }
    }

    /** What a prune nobody disturbs leaves of a readable repository. */
    ghost function Left(repo: Repository): (r: Repository)
      requires repo.Repository?
    {
      if force then Pruned(content, now, repo) else repo
    }

    /** Every listed repository is pruned and no other one is touched. */
    ghost predicate Swept(g: Registry, g': Registry, repos: seq<string>)
      requires AllWhole(g, repos)
    {
      && g'.Keys == g.Keys
      && forall r :: r in g ==> g'[r] == if r in repos then Left(g[r]) else g[r]
    }

    /** Report what a plan keeps. */
    method List(repo: string, plan: seq<Kept>)
      requires Accounted()
      modifies this`kept, this`listed
      ensures Accounted() && listed == old(listed) + Reported(repo, plan)
    {
      hide Faithful, Requests;
      ListMore(force, planned, listed, checks, Requests(content, start, run), Report(manifests, kept, failed), Reported(repo, plan));
      kept, listed := kept + Reported(repo, plan), listed + Reported(repo, plan);
    }

    /** The planned manifests of one repository, in the plan's order. */
    method DeletePlanned(repo: string, todo: seq<Digest>) returns (bad: nat)
      requires Valid()
      modifies this
      ensures Valid() && planned == old(planned) + InRepository(repo, todo) && listed == old(listed) && plans == old(plans)
      ensures |failed| == old(|failed|) + bad
      ensures unreadable == old(unreadable) || (repo !in old(unreadable) && unreadable == old(unreadable) + [repo])
      ensures !force ==> registry == old(registry)
      ensures Alone() && force && repo in old(registry) && Whole(old(registry)[repo]) && todo == PlannedIn(content, now, old(registry)[repo]) ==>
                && registry == old(registry)[repo := Pruned(content, now, old(registry)[repo])]
                && bad == Refusals(content, old(registry)[repo].rows, todo)
    {
      hide Valid, Alone, Held, PlannedIn, Served, Ready, NamedByIndex, Refusals, Remaining;
      ghost var g := registry;
      ghost var undisturbed := Alone() && force && repo in g && Whole(g[repo]) && todo == PlannedIn(content, now, g[repo]);
      bad := 0;
      if undisturbed {
        NothingAsked(content, g[repo].rows);
      }
      for i := 0 to |todo|
        invariant Valid() && planned == old(planned) + InRepository(repo, todo[..i]) && listed == old(listed) && plans == old(plans)
        invariant |failed| == old(|failed|) + bad
        invariant unreadable == old(unreadable) || (repo !in old(unreadable) && unreadable == old(unreadable) + [repo])
        invariant !force ==> registry == g
        invariant undisturbed ==> g[repo].Repository?
        invariant undisturbed ==> registry == g[repo := Repository(Remaining(content, g[repo].rows, todo[..i]), g[repo].times)]
        invariant undisturbed ==> bad == Refusals(content, g[repo].rows, todo[..i])
      {
        if undisturbed {
          NextIsReady(content, now, g, repo, todo, i);
          NextStep(content, now, g, repo, todo, i);
          RemainingNext(content, g[repo].rows, todo, i);
        }
        assert InRepository(repo, todo[..i + 1]) == InRepository(repo, todo[..i]) + [Manifest(repo, todo[i])];
        var failing := PruneManifest(Manifest(repo, todo[i]));
        if failing {
          bad := bad + 1;
        }
      }
      assert todo[..|todo|] == todo;
    }

    /** The plan of one repository, and what it says to keep. */
    method PlanNext(repo: string) returns (plan: Plan, ghost p: Planning)
      requires Valid() && repo !in unreadable
      modifies this`registry, this`clock, this`run, this`plans, this`kept, this`listed, this`unreadable
      ensures Valid() && plans == old(plans) + [p] && p.repository == repo && p.plan == plan
      ensures if p.read.Seen? then PlanOf(content, p.read.view, now, plan) else plan == Plan([], [])
      ensures listed == old(listed) + Reported(repo, plan.kept)
      ensures unreadable == if p.read.Broken? then old(unreadable) + [repo] else old(unreadable)
      ensures Alone() ==> registry == old(registry) && ReadsTo(registry, repo, p.read)
    {
      hide Traced, Faithful, Requests, Alone, ReadsTo, PlanOf, SoundCheck, ReadAfter, Noted, Reported;
      var read, at := Read(repo);
      plan := Plan([], []);
      if read.Broken? {
        unreadable := unreadable + [repo];
      }
      if read.Seen? {
        plan := PlanRepository(content, read.view, now);
      }
      p := Planning(repo, at, read, plan);
      NotedPlan(old(unreadable), plans, checks, p);
      plans := plans + [p];
      List(repo, plan.kept);
    }

    /** One repository: its plan, then its deletions. */
    method PruneRepository(repo: string) returns (bad: nat, ghost p: Planning)
      requires Valid() && repo !in unreadable
      modifies this
      ensures Valid() && |failed| == old(|failed|) + bad
      ensures plans == old(plans) + [p] && p.repository == repo
      ensures planned == old(planned) + InRepository(repo, p.plan.delete) && listed == old(listed) + Reported(repo, p.plan.kept)
      ensures AllNew(repo, InRepository(repo, p.plan.delete) + ManifestsOf(Reported(repo, p.plan.kept)))
      ensures unreadable == old(unreadable) || unreadable == old(unreadable) + [repo]
      ensures Alone() && repo in old(registry) && Whole(old(registry)[repo]) ==>
                && registry == old(registry)[repo := Left(old(registry)[repo])]
                && p.plan.delete == PlannedIn(content, now, old(registry)[repo])
                && (force ==> bad == Refusals(content, old(registry)[repo].rows, p.plan.delete))
    {
      hide Valid, Noted, Alone, Held, Readable, Pruned, PlannedIn, PlanOf, ManifestsOf, InRepository, Reported, AllNew;
      var plan, next := PlanNext(repo);
      p := next;
      PlanIsNew(content, now, p);
      if Alone() && repo in registry && Whole(registry[repo]) {
        ReadPlans(content, now, registry, p);
      }
      bad := DeletePlanned(repo, plan.delete);
    }

    /** pruneRegistry over the repositories the store listed. */
    method PruneRegistry(repos: seq<string>) returns (bad: nat)
      requires Valid() && Distinct(repos) && plans == [] && planned == [] && listed == [] && unreadable == [] && failed == []
      modifies this
      ensures Valid() && bad == |failed|
      ensures RepositoriesOf(plans) == repos && planned == ToDelete(plans) && listed == ToKeep(plans)
      ensures Distinct(planned + ManifestsOf(listed)) && Distinct(unreadable)
      ensures forall r :: r in unreadable ==> r in repos
      ensures Alone() && AllWhole(old(registry), repos) ==>
                && Swept(old(registry), registry, repos)
                && planned == AllPlanned(content, now, old(registry), repos)
                && (force ==> bad == AllRefusals(content, now, old(registry), repos))
    {
      hide Valid, Alone, Whole, Left, PlannedIn, Refusals, AllNew, ToDelete, ToKeep, ManifestsOf, RepositoriesOf;
      ghost var g := registry;
      ghost var undisturbed := Alone() && AllWhole(g, repos);
      bad := 0;
      NoPlans();
      for i := 0 to |repos|
        invariant Valid() && bad == |failed|
        invariant RepositoriesOf(plans) == repos[..i] && planned == ToDelete(plans) && listed == ToKeep(plans)
        invariant Distinct(planned + ManifestsOf(listed)) && forall m :: m in planned + ManifestsOf(listed) ==> m.repository in repos[..i]
        invariant Distinct(unreadable) && forall r :: r in unreadable ==> r in repos[..i]
        invariant undisturbed ==> Swept(g, registry, repos[..i]) && planned == AllPlanned(content, now, g, repos[..i])
        invariant undisturbed && force ==> bad == AllRefusals(content, now, g, repos[..i])
      {
        ghost var plans0, planned0, listed0 := plans, planned, listed;
        assert repos[i] !in repos[..i];
        var n, p := PruneRepository(repos[i]);
        PlanMore(plans0, p);
        NewStayDistinct(planned0, listed0, repos[i], p.plan, repos[..i]);
        bad := bad + n;
        assert repos[..i + 1] == repos[..i] + [repos[i]] && repos[..i + 1][..i] == repos[..i];
      }
      assert repos[..|repos|] == repos;
    }
  }
}
