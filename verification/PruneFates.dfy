/** What becomes of each manifest a prune plans: the reads it is judged on, the requests that go out and the
    registry's answers, and the lists of the report as those settle them. */
module PruneFates {
  import opened Wrappers
  import opened PrunePlan
  import opened RegistryPrune

  // ----- reads -----

  /** One read of a repository by the planner. */
  datatype Reading = Absent | Broken | Seen(view: View)

  /** What a re-check of d must answer: no reason and the view it judged, or why d stays. */
  ghost predicate Verdict(content: Content, now: int, read: Reading, d: Digest, why: Option<KeepReason>) {
    match read
    case Absent => why == Some(GoneSincePlan)
    case Broken => why == Some(Unreadable)
    case Seen(v) =>
      if d !in Held(v.rows) then why == Some(GoneSincePlan)
      else if d in TaggedSet(v.rows) then why == Some(TaggedSincePlan)
      else if !Readable(v) then why == Some(Unreadable)
      else if d in Doomed(content, v, now) then why == None
      else why.Some? && Justified(content, v, now, d, why.value)
  }

  /** The index read of a repository: absent, damaged, or its rows. */
  predicate IndexReads(g: Registry, repo: string, read: Reading) {
    if repo !in g then read == Absent
    else if g[repo].Damaged? then read == Broken
    else read.Seen? && read.view.rows == g[repo].rows
  }

  /** The index was read just after the first at moves of the run. */
  ghost predicate ReadAfter(content: Content, start: Registry, run: seq<Move>, at: nat, repo: string, read: Reading) {
    at <= |run| && IndexReads(Replay(content, start, run[..at]), repo, read)
  }

  /** A re-check: the manifest, when and what it read, and its verdict. */
  datatype Check = Check(manifest: Manifest, at: nat, read: Reading, why: Option<KeepReason>)

  /** A repository's plan, and when and what it read. */
  datatype Planning = Planning(repository: string, at: nat, read: Reading, plan: Plan)

  ghost predicate SoundCheck(content: Content, now: int, start: Registry, run: seq<Move>, c: Check) {
    && ReadAfter(content, start, run, c.at, c.manifest.repository, c.read)
    && Verdict(content, now, c.read, c.manifest.digest, c.why)
  }

  ghost predicate SoundPlanning(content: Content, now: int, start: Registry, run: seq<Move>, p: Planning) {
    && ReadAfter(content, start, run, p.at, p.repository, p.read)
    && if p.read.Seen? then PlanOf(content, p.read.view, now, p.plan) else p.plan == Plan([], [])
  }

  /** Every plan and every re-check read the registry of its instant and judged what it read. */
  ghost predicate Sighted(content: Content, now: int, start: Registry, run: seq<Move>, plans: seq<Planning>, checks: seq<Check>) {
    && (forall p :: p in plans ==> SoundPlanning(content, now, start, run, p))
    && (forall c :: c in checks ==> SoundCheck(content, now, start, run, c))
  }

  /** What was read stays read as the run goes on. */
  lemma SightedGrows(content: Content, now: int, start: Registry, run: seq<Move>, plans: seq<Planning>, checks: seq<Check>, mv: Move)
    requires Sighted(content, now, start, run, plans, checks)
    ensures Sighted(content, now, start, run + [mv], plans, checks)
  {
    hide Verdict, PlanOf, Replay, IndexReads;
    forall p | p in plans ensures SoundPlanning(content, now, start, run + [mv], p) {
      assert (run + [mv])[..p.at] == run[..p.at];
    }
    forall c | c in checks ensures SoundCheck(content, now, start, run + [mv], c) {
      assert (run + [mv])[..c.at] == run[..c.at];
    }
  }

  // ----- requests -----

  /** A DELETE of the prune with the view it was judged on, what became of it, and the registry's answer at
      its instant. */
  datatype Request = Request(manifest: Manifest, view: View, delivery: Delivery, reply: Reply)

  function RequestOf(content: Content, g: Registry, mv: Move): (q: Request)
    requires mv.Ask?
  {
    Request(mv.manifest, mv.view, mv.delivery, Serve(content, g, mv.manifest, mv.view.rows))
  }

  /** The requests of a run, in order. */
  function Requests(content: Content, start: Registry, run: seq<Move>): (qs: seq<Request>) {
    if run == [] then [] else
      var earlier, mv := run[..|run| - 1], run[|run| - 1];
      Requests(content, start, earlier)
      + if mv.Ask? then [RequestOf(content, Replay(content, start, earlier), mv)] else []
  }

  lemma RequestsGrow(content: Content, start: Registry, run: seq<Move>, mv: Move)
    ensures Requests(content, start, run + [mv])
         == Requests(content, start, run) + if mv.Ask? then [RequestOf(content, Replay(content, start, run), mv)] else []
  {
    assert (run + [mv])[..|run|] == run;
  }

  /** A cleared move keeps a run safe and everything read so far as it was read. */
  lemma RunGoesOn(content: Content, now: int, start: Registry, run: seq<Move>, plans: seq<Planning>, checks: seq<Check>, mv: Move)
    requires SafeRun(content, now, start, run) && Sighted(content, now, start, run, plans, checks) && Cleared(content, now, mv)
    ensures SafeRun(content, now, start, run + [mv]) && Sighted(content, now, start, run + [mv], plans, checks)
    ensures Replay(content, start, run + [mv]) == Apply(content, Replay(content, start, run), mv)
    ensures Requests(content, start, run + [mv])
         == Requests(content, start, run) + if mv.Ask? then [RequestOf(content, Replay(content, start, run), mv)] else []
  {
    hide SafeRun, Sighted, Cleared, Replay, Requests, RequestOf, DeletedBy;
    RunGrows(content, now, start, run, mv);
    SightedGrows(content, now, start, run, plans, checks, mv);
    RequestsGrow(content, start, run, mv);
  }

  /** The requests are the DELETEs of the run, each answered by the registry as it stood then. */
  lemma {:induction false} RequestsAre(content: Content, start: Registry, run: seq<Move>, q: Request)
    ensures q in Requests(content, start, run) <==>
            exists i :: 0 <= i < |run| && run[i].Ask? && q == RequestOf(content, Replay(content, start, run[..i]), run[i])
  {
    hide RequestOf;
    if run != [] {
      var n := |run| - 1;
      RequestsAre(content, start, run[..n], q);
      forall i | 0 <= i < n ensures run[..n][..i] == run[..i] {
      }
    }
  }

  /** The request never got out, its answer was lost, or the registry refused it. */
  predicate Fails(q: Request) {
    q.delivery != Delivered || q.reply == Refused
  }

  predicate Deleted(q: Request) {
    q.delivery == Delivered && q.reply == Accepted
  }

  predicate Outrun(q: Request) {
    q.delivery == Delivered && q.reply == Changed
  }

  /** The manifests of the requests that p holds of, in order. */
  function Where(qs: seq<Request>, p: Request -> bool): (r: seq<Manifest>) {
    if qs == [] then [] else
      var n := |qs| - 1;
      Where(qs[..n], p) + if p(qs[n]) then [qs[n].manifest] else []
  }

  lemma {:induction false} WhereIs(qs: seq<Request>, p: Request -> bool, m: Manifest)
    ensures m in Where(qs, p) <==> exists q :: q in qs && p(q) && q.manifest == m
  {
    if qs != [] {
      var n := |qs| - 1;
      assert qs == qs[..n] + [qs[n]];
      WhereIs(qs[..n], p, m);
    }
  }

  /** Each manifest with the one reason. */
  function Because(ms: seq<Manifest>, why: KeepReason): (r: seq<KeptManifest>)
    ensures |r| == |ms|
  {
    seq(|ms|, i requires 0 <= i < |ms| => KeptManifest(ms[i], why))
  }

  // ----- re-checks -----

  /** What the re-checks keep, each with the reason it gave. */
  function Spared(checks: seq<Check>): (r: seq<KeptManifest>) {
    if checks == [] then [] else
      var n := |checks| - 1;
      Spared(checks[..n]) + if checks[n].why.Some? then [KeptManifest(checks[n].manifest, checks[n].why.value)] else []
  }

  lemma {:induction false} SparedIs(checks: seq<Check>, k: KeptManifest)
    ensures k in Spared(checks) <==> exists c :: c in checks && c.why == Some(k.reason) && c.manifest == k.manifest
  {
    if checks != [] {
      var n := |checks| - 1;
      assert checks == checks[..n] + [checks[n]];
      SparedIs(checks[..n], k);
    }
  }

  /** What the re-checks let go, each with the view it was judged on. */
  function LetGo(checks: seq<Check>): (r: seq<(Manifest, View)>) {
    if checks == [] then [] else
      var n := |checks| - 1;
      LetGo(checks[..n])
      + if checks[n].why == None && checks[n].read.Seen? then [(checks[n].manifest, checks[n].read.view)] else []
  }

  lemma {:induction false} LetGoIs(checks: seq<Check>, x: (Manifest, View))
    ensures x in LetGo(checks) <==> exists c :: c in checks && c.why == None && c.read == Seen(x.1) && c.manifest == x.0
  {
    if checks != [] {
      var n := |checks| - 1;
      assert checks == checks[..n] + [checks[n]];
      LetGoIs(checks[..n], x);
    }
  }

  function Rechecked(checks: seq<Check>): (r: seq<Manifest>)
    ensures |r| == |checks|
  {
    seq(|checks|, i requires 0 <= i < |checks| => checks[i].manifest)
  }

  function Asked(qs: seq<Request>): (r: seq<(Manifest, View)>)
    ensures |r| == |qs|
  {
    seq(|qs|, i requires 0 <= i < |qs| => (qs[i].manifest, qs[i].view))
  }

  // ----- the report -----

  datatype Report = Report(manifests: seq<Manifest>, kept: seq<KeptManifest>, failed: seq<Manifest>)

  /** What a report must say. A dry run lists the plan. A forced one re-checks every planned manifest in turn
      and asks for exactly those its re-checks let go, on the views they were judged on; it lists as deleted
      what the registry accepted, as failed what failed, and keeps what the plans keep, what a re-check
      spares, with its reason, and what changed since. */
  ghost predicate Faithful(force: bool, planned: seq<Manifest>, listed: seq<KeptManifest>, checks: seq<Check>, qs: seq<Request>, r: Report) {
    && r.failed == Where(qs, Fails)
    && multiset(r.kept) == multiset(listed) + multiset(Spared(checks)) + multiset(Because(Where(qs, Outrun), ChangedSincePlan))
    && Asked(qs) == LetGo(checks)
    && if force then planned == Rechecked(checks) && r.manifests == Where(qs, Deleted)
       else r.manifests == planned && checks == []
  }

  lemma WhereMore(qs: seq<Request>, q: Request, p: Request -> bool)
    ensures p(q) ==> Where(qs + [q], p) == Where(qs, p) + [q.manifest]
    ensures !p(q) ==> Where(qs + [q], p) == Where(qs, p)
  {
    assert (qs + [q])[..|qs|] == qs;
  }

  lemma CheckMore(checks: seq<Check>, c: Check)
    ensures Rechecked(checks + [c]) == Rechecked(checks) + [c.manifest]
    ensures Spared(checks + [c]) == Spared(checks) + if c.why.Some? then [KeptManifest(c.manifest, c.why.value)] else []
    ensures LetGo(checks + [c]) == LetGo(checks) + if c.why == None && c.read.Seen? then [(c.manifest, c.read.view)] else []
  {
    assert (checks + [c])[..|checks|] == checks;
  }

  lemma DryMore(planned: seq<Manifest>, listed: seq<KeptManifest>, checks: seq<Check>, qs: seq<Request>, r: Report, m: Manifest)
    requires Faithful(false, planned, listed, checks, qs, r)
    ensures Faithful(false, planned + [m], listed, checks, qs, r.(manifests := r.manifests + [m]))
  {
  }

  lemma ListMore(force: bool, planned: seq<Manifest>, listed: seq<KeptManifest>, checks: seq<Check>, qs: seq<Request>, r: Report, more: seq<KeptManifest>)
    requires Faithful(force, planned, listed, checks, qs, r)
    ensures Faithful(force, planned, listed + more, checks, qs, r.(kept := r.kept + more))
  {
  }

  /** A re-check that gives a reason: kept, with that reason. */
  lemma SpareMore(planned: seq<Manifest>, listed: seq<KeptManifest>, checks: seq<Check>, qs: seq<Request>, r: Report, c: Check)
    requires Faithful(true, planned, listed, checks, qs, r) && c.why.Some?
    ensures Faithful(true, planned + [c.manifest], listed, checks + [c], qs, r.(kept := r.kept + [KeptManifest(c.manifest, c.why.value)]))
  {
    CheckMore(checks, c);
    hide Spared, LetGo, Rechecked, Where, Asked, Because;
  }

  /** What a request adds to the report. */
  function Entered(r: Report, q: Request): (r': Report) {
    if Fails(q) then r.(failed := r.failed + [q.manifest])
    else if q.reply == Changed then r.(kept := r.kept + [KeptManifest(q.manifest, ChangedSincePlan)])
    else r.(manifests := r.manifests + [q.manifest])
  }

  lemma AskMore(planned: seq<Manifest>, listed: seq<KeptManifest>, checks: seq<Check>, qs: seq<Request>, r: Report, c: Check, q: Request)
    requires Faithful(true, planned, listed, checks, qs, r)
    requires c.why == None && c.read == Seen(q.view) && c.manifest == q.manifest
    ensures Faithful(true, planned + [c.manifest], listed, checks + [c], qs + [q], Entered(r, q))
  {
    hide Spared, LetGo, Rechecked, Where, Asked, Because;
    CheckMore(checks, c);
    assert Spared(checks + [c]) == Spared(checks);
    AskedMore(qs, q);
    KeptMore(listed + Spared(checks), qs, r, q);
    assert multiset(listed + Spared(checks)) == multiset(listed) + multiset(Spared(checks));
    var told := Entered(r, q);
    assert told.failed == Where(qs + [q], Fails) by { WhereMore(qs, q, Fails); }
    assert told.manifests == Where(qs + [q], Deleted) by { WhereMore(qs, q, Deleted); }
  }

  lemma AskedMore(qs: seq<Request>, q: Request)
    ensures Asked(qs + [q]) == Asked(qs) + [(q.manifest, q.view)]
  {
  }

  lemma KeptMore(a: seq<KeptManifest>, qs: seq<Request>, r: Report, q: Request)
    requires multiset(r.kept) == multiset(a) + multiset(Because(Where(qs, Outrun), ChangedSincePlan))
    ensures multiset(Entered(r, q).kept) == multiset(a) + multiset(Because(Where(qs + [q], Outrun), ChangedSincePlan))
  {
    WhereMore(qs, q, Outrun);
    hide Where, Because;
    var outrun := Where(qs, Outrun);
    if Outrun(q) {
      BecauseMore(outrun, q.manifest);
      var b, k := Because(outrun, ChangedSincePlan), KeptManifest(q.manifest, ChangedSincePlan);
      assert multiset(r.kept + [k]) == multiset(a) + multiset(b + [k]);
    }
  }

  lemma BecauseMore(ms: seq<Manifest>, m: Manifest)
    ensures Because(ms + [m], ChangedSincePlan) == Because(ms, ChangedSincePlan) + [KeptManifest(m, ChangedSincePlan)]
  {
  }

  // ----- what the plans say -----

  function ManifestsOf(kept: seq<KeptManifest>): (r: seq<Manifest>)
    ensures |r| == |kept|
  {
    seq(|kept|, i requires 0 <= i < |kept| => kept[i].manifest)
  }

  function InRepository(repo: string, digests: seq<Digest>): (r: seq<Manifest>)
    ensures |r| == |digests|
  {
    seq(|digests|, i requires 0 <= i < |digests| => Manifest(repo, digests[i]))
  }

  function Reported(repo: string, kept: seq<Kept>): (r: seq<KeptManifest>)
    ensures |r| == |kept|
    ensures ManifestsOf(r) == InRepository(repo, Names(kept))
  {
    seq(|kept|, i requires 0 <= i < |kept| => KeptManifest(Manifest(repo, kept[i].digest), kept[i].reason))
  }

  function RepositoriesOf(plans: seq<Planning>): (r: seq<string>)
    ensures |r| == |plans|
  {
    seq(|plans|, i requires 0 <= i < |plans| => plans[i].repository)
  }

  /** What the plans delete, plan by plan. */
  function ToDelete(plans: seq<Planning>): (r: seq<Manifest>) {
    if plans == [] then [] else
      var p := plans[|plans| - 1];
      ToDelete(plans[..|plans| - 1]) + InRepository(p.repository, p.plan.delete)
  }

  /** What the plans keep, each with the plan's reason. */
  function ToKeep(plans: seq<Planning>): (r: seq<KeptManifest>) {
    if plans == [] then [] else
      var p := plans[|plans| - 1];
      ToKeep(plans[..|plans| - 1]) + Reported(p.repository, p.plan.kept)
  }

  lemma PlanMore(plans: seq<Planning>, p: Planning)
    ensures RepositoriesOf(plans + [p]) == RepositoriesOf(plans) + [p.repository]
    ensures ToDelete(plans + [p]) == ToDelete(plans) + InRepository(p.repository, p.plan.delete)
    ensures ToKeep(plans + [p]) == ToKeep(plans) + Reported(p.repository, p.plan.kept)
  {
    assert (plans + [p])[..|plans|] == plans;
  }

  /** The repositories a plan or a re-check could not read. */
  ghost predicate Unread(plans: seq<Planning>, checks: seq<Check>, repo: string) {
    || (exists p :: p in plans && p.repository == repo && p.read.Broken?)
    || (exists c :: c in checks && c.manifest.repository == repo && c.why == Some(Unreadable))
  }

  /** The repositories listed as unreadable are exactly those. */
  ghost predicate Noted(unreadable: seq<string>, plans: seq<Planning>, checks: seq<Check>) {
    forall r :: r in unreadable <==> Unread(plans, checks, r)
  }

  lemma NotedPlan(unreadable: seq<string>, plans: seq<Planning>, checks: seq<Check>, p: Planning)
    requires Noted(unreadable, plans, checks)
    ensures Noted(if p.read.Broken? then unreadable + [p.repository] else unreadable, plans + [p], checks)
  {
    forall r ensures Unread(plans + [p], checks, r) <==> Unread(plans, checks, r) || (p.read.Broken? && p.repository == r) {
      assert p in plans + [p];
    }
  }

  lemma NotedCheck(unreadable: seq<string>, plans: seq<Planning>, checks: seq<Check>, c: Check)
    requires Noted(unreadable, plans, checks)
    ensures var repo := c.manifest.repository;
      Noted(if c.why == Some(Unreadable) && repo !in unreadable then unreadable + [repo] else unreadable, plans, checks + [c])
  {
    forall r ensures Unread(plans, checks + [c], r) <==>
                     Unread(plans, checks, r) || (c.why == Some(Unreadable) && c.manifest.repository == r) {
      assert c in checks + [c];
    }
  }

  // ----- what a faithful report means -----

  function Firsts(s: seq<(Manifest, View)>): (r: seq<Manifest>)
    ensures |r| == |s|
  {
    seq(|s|, i requires 0 <= i < |s| => s[i].0)
  }

  ghost predicate InBalance(qs: seq<Request>) {
    multiset(Firsts(Asked(qs))) == multiset(Where(qs, Deleted)) + multiset(Where(qs, Outrun)) + multiset(Where(qs, Fails))
  }

  lemma {:induction false} RequestsBalance(qs: seq<Request>)
    ensures InBalance(qs)
  {
    if qs == [] {
      assert Firsts(Asked(qs)) == [];
    } else {
      hide InBalance;
      var init, q := qs[..|qs| - 1], qs[|qs| - 1];
      assert qs == init + [q];
      RequestsBalance(init);
      RequestBalances(init, q);
    }
  }

  lemma FirstsMore(qs: seq<Request>, q: Request)
    ensures Firsts(Asked(qs + [q])) == Firsts(Asked(qs)) + [q.manifest]
  {
  }

  lemma RequestBalances(qs: seq<Request>, q: Request)
    requires InBalance(qs)
    ensures InBalance(qs + [q])
  {
    hide Where, Asked, Firsts;
    FirstsMore(qs, q);
    var all, deleted, outrun, failed, m := Firsts(Asked(qs)), Where(qs, Deleted), Where(qs, Outrun), Where(qs, Fails), q.manifest;
    WhereMore(qs, q, Deleted);
    WhereMore(qs, q, Outrun);
    WhereMore(qs, q, Fails);
    BalanceMore(all, deleted, outrun, failed, m);
    hide InBalance;
    var deleted', outrun', failed' := Where(qs + [q], Deleted), Where(qs + [q], Outrun), Where(qs + [q], Fails);
    if Fails(q) {
      assert deleted' == deleted && outrun' == outrun && failed' == failed + [m];
    } else if Outrun(q) {
      assert deleted' == deleted && outrun' == outrun + [m] && failed' == failed;
    } else {
      assert deleted' == deleted + [m] && outrun' == outrun && failed' == failed;
    }
    Balances(qs + [q]);
  }

  lemma Balances(qs: seq<Request>)
    requires multiset(Firsts(Asked(qs))) == multiset(Where(qs, Deleted)) + multiset(Where(qs, Outrun)) + multiset(Where(qs, Fails))
    ensures InBalance(qs)
  {
  }

  lemma BalanceMore(all: seq<Manifest>, a: seq<Manifest>, b: seq<Manifest>, c: seq<Manifest>, m: Manifest)
    requires multiset(all) == multiset(a) + multiset(b) + multiset(c)
    ensures multiset(all + [m]) == multiset(a + [m]) + multiset(b) + multiset(c)
    ensures multiset(all + [m]) == multiset(a) + multiset(b + [m]) + multiset(c)
    ensures multiset(all + [m]) == multiset(a) + multiset(b) + multiset(c + [m])
  {
  }

  lemma {:induction false} ChecksBalance(checks: seq<Check>)
    requires forall c :: c in checks && c.why == None ==> c.read.Seen?
    ensures multiset(Rechecked(checks)) == multiset(ManifestsOf(Spared(checks))) + multiset(Firsts(LetGo(checks)))
  {
    if checks != [] {
      var n := |checks| - 1;
      var c := checks[n];
      ChecksBalance(checks[..n]);
      assert checks == checks[..n] + [c];
      assert Rechecked(checks) == Rechecked(checks[..n]) + [c.manifest];
      if c.why == None {
        assert Firsts(LetGo(checks)) == Firsts(LetGo(checks[..n])) + [c.manifest];
        assert Spared(checks) == Spared(checks[..n]);
      } else {
        assert ManifestsOf(Spared(checks)) == ManifestsOf(Spared(checks[..n])) + [c.manifest];
        assert LetGo(checks) == LetGo(checks[..n]);
      }
    }
  }

  /** The books of a forced prune balance: the planned manifests are the deleted, the kept after all and the
      failed ones, none lost and none twice. */
  lemma BooksBalance(planned: seq<Manifest>, listed: seq<KeptManifest>, checks: seq<Check>, qs: seq<Request>, r: Report)
    requires Faithful(true, planned, listed, checks, qs, r) && forall c :: c in checks && c.why == None ==> c.read.Seen?
    ensures multiset(planned) == multiset(r.manifests) + multiset(ManifestsOf(Spared(checks)) + Where(qs, Outrun)) + multiset(r.failed)
    ensures |planned| == |r.manifests| + |Spared(checks)| + |Where(qs, Outrun)| + |r.failed|
  {
    ChecksBalance(checks);
    RequestsBalance(qs);
    hide Spared, LetGo, Rechecked, Where, Asked, Because, Firsts, ManifestsOf;
    var spared := ManifestsOf(Spared(checks)) + Where(qs, Outrun);
    assert multiset(spared) == multiset(ManifestsOf(Spared(checks))) + multiset(Where(qs, Outrun));
    assert |multiset(planned)| == |multiset(r.manifests) + multiset(spared) + multiset(r.failed)|;
  }

  /** A manifest is reported as failed exactly when the registry got no request for it, or the answer was
      lost, or the registry, as it stood at that instant, refused. */
  lemma FailedExactly(content: Content, start: Registry, run: seq<Move>, force: bool, planned: seq<Manifest>, listed: seq<KeptManifest>, checks: seq<Check>, r: Report, m: Manifest)
    requires Faithful(force, planned, listed, checks, Requests(content, start, run), r)
    ensures m in r.failed <==>
            exists i :: 0 <= i < |run| && run[i].Ask? && run[i].manifest == m
                        && (run[i].delivery != Delivered || Serve(content, Replay(content, start, run[..i]), m, run[i].view.rows) == Refused)
  {
    hide Serve, Replay, Faithful;
    var qs := Requests(content, start, run);
    assert r.failed == Where(qs, Fails) by { FaithfulFailed(force, planned, listed, checks, qs, r); }
    WhereIs(qs, Fails, m);
    if m in r.failed {
      var q :| q in qs && Fails(q) && q.manifest == m;
      RequestsAre(content, start, run, q);
    }
    if i :| 0 <= i < |run| && run[i].Ask? && run[i].manifest == m
            && (run[i].delivery != Delivered || Serve(content, Replay(content, start, run[..i]), m, run[i].view.rows) == Refused) {
      var q := RequestOf(content, Replay(content, start, run[..i]), run[i]);
      RequestsAre(content, start, run, q);
      assert q in qs && Fails(q);
    }
  }

  lemma FaithfulFailed(force: bool, planned: seq<Manifest>, listed: seq<KeptManifest>, checks: seq<Check>, qs: seq<Request>, r: Report)
    requires Faithful(force, planned, listed, checks, qs, r)
    ensures r.failed == Where(qs, Fails)
  {
  }

  /** What a forced prune calls deleted it deleted, and what it deleted it calls deleted or, when the answer
      was lost, failed. */
  lemma ReportIsTruthful(content: Content, start: Registry, run: seq<Move>, m: Manifest)
    ensures m in Where(Requests(content, start, run), Deleted) ==> m in DeletedBy(content, start, run)
    ensures m in DeletedBy(content, start, run) ==>
              m in Where(Requests(content, start, run), Deleted) || m in Where(Requests(content, start, run), Fails)
  {
    var qs := Requests(content, start, run);
    WhereIs(qs, Deleted, m);
    WhereIs(qs, Fails, m);
    if m in Where(qs, Deleted) {
      var q :| q in qs && Deleted(q) && q.manifest == m;
      RequestsAre(content, start, run, q);
      var i :| 0 <= i < |run| && run[i].Ask? && q == RequestOf(content, Replay(content, start, run[..i]), run[i]);
      DeletedAt(content, start, run, i);
    }
    if m in DeletedBy(content, start, run) {
      var i := DeletedWhen(content, start, run, m);
      var q := RequestOf(content, Replay(content, start, run[..i]), run[i]);
      RequestsAre(content, start, run, q);
      assert q in qs && (Deleted(q) || Fails(q));
    }
  }

  lemma {:induction false} DeletedAt(content: Content, start: Registry, run: seq<Move>, i: nat)
    requires i < |run| && Deletes(content, Replay(content, start, run[..i]), run[i])
    ensures run[i].manifest in DeletedBy(content, start, run)
  {
    hide Deletes, Replay;
    if i < |run| - 1 {
      assert run[..|run| - 1][..i] == run[..i];
      DeletedAt(content, start, run[..|run| - 1], i);
    }
  }

  lemma {:induction false} DeletedWhen(content: Content, start: Registry, run: seq<Move>, m: Manifest) returns (i: nat)
    requires m in DeletedBy(content, start, run)
    ensures i < |run| && run[i].Ask? && run[i].manifest == m && Deletes(content, Replay(content, start, run[..i]), run[i])
  {
    var n := |run| - 1;
    if m in DeletedBy(content, start, run[..n]) {
      i := DeletedWhen(content, start, run[..n], m);
      assert run[..n][..i] == run[..i];
    } else {
      i := n;
    }
  }

  lemma OneCheckEach(checks: seq<Check>, c: Check, d: Check)
    requires Distinct(Rechecked(checks)) && c in checks && d in checks && c.manifest == d.manifest
    ensures c == d
  {
    var i :| 0 <= i < |checks| && checks[i] == c;
    var j :| 0 <= j < |checks| && checks[j] == d;
    assert Rechecked(checks)[i] == Rechecked(checks)[j];
  }

  lemma AskedIn(qs: seq<Request>, q: Request)
    requires q in qs
    ensures (q.manifest, q.view) in Asked(qs)
  {
    var i :| 0 <= i < |qs| && qs[i] == q;
    assert Asked(qs)[i] == (q.manifest, q.view);
  }

  /** Only what a re-check let go is asked for. */
  lemma AskedWasLetGo(checks: seq<Check>, qs: seq<Request>, q: Request, c: Check)
    requires Asked(qs) == LetGo(checks) && Distinct(Rechecked(checks)) && q in qs && c in checks && c.manifest == q.manifest
    ensures c.why == None && c.read == Seen(q.view)
  {
    AskedIn(qs, q);
    LetGoIs(checks, (q.manifest, q.view));
    var d :| d in checks && d.why == None && d.read == Seen(q.view) && d.manifest == q.manifest;
    OneCheckEach(checks, c, d);
  }

  lemma KeptAre(ms: seq<Manifest>, why: KeepReason, k: KeptManifest)
    ensures k in Because(ms, why) <==> k.manifest in ms && k.reason == why
  {
    if k.manifest in ms && k.reason == why {
      var i :| 0 <= i < |ms| && ms[i] == k.manifest;
      assert Because(ms, why)[i] == k;
    }
  }

  /** Membership in the kept list of a faithful report. */
  lemma KeptFrom(force: bool, planned: seq<Manifest>, listed: seq<KeptManifest>, checks: seq<Check>, qs: seq<Request>, r: Report, k: KeptManifest)
    requires Faithful(force, planned, listed, checks, qs, r)
    ensures k in r.kept <==>
              || k in listed
              || (exists c :: c in checks && c.why == Some(k.reason) && c.manifest == k.manifest)
              || (k.reason == ChangedSincePlan && exists q :: q in qs && Outrun(q) && q.manifest == k.manifest)
  {
    assert k in r.kept <==> k in multiset(r.kept);
    KeptAre(Where(qs, Outrun), ChangedSincePlan, k);
    WhereIs(qs, Outrun, k.manifest);
    SparedIs(checks, k);
    hide Asked, LetGo, Rechecked, Where, Spared, Because;
  }

  /** No manifest is planned twice, and none is both planned and kept by a plan. */
  lemma CheckedApart(planned: seq<Manifest>, listed: seq<KeptManifest>, checks: seq<Check>, c: Check)
    requires planned == Rechecked(checks) && Distinct(planned + ManifestsOf(listed)) && c in checks
    ensures Distinct(planned) && forall k :: k in listed ==> k.manifest != c.manifest
  {
    var all := planned + ManifestsOf(listed);
    assert all[..|planned|] == planned;
    assert Distinct(planned) by {
      forall i, j | 0 <= i < j < |planned| ensures planned[i] != planned[j] {
        assert all[i] == planned[i] && all[j] == planned[j];
      }
    }
    var i :| 0 <= i < |checks| && checks[i] == c;
    forall k | k in listed ensures k.manifest != c.manifest {
      var j :| 0 <= j < |listed| && listed[j] == k;
      assert all[i] == c.manifest && all[|planned| + j] == k.manifest;
    }
  }

  /** A planned manifest a re-check spares is kept with that reason and no other, and neither deleted nor
      failed. */
  lemma SparedFate(planned: seq<Manifest>, listed: seq<KeptManifest>, checks: seq<Check>, qs: seq<Request>, r: Report, c: Check, why: KeepReason)
    requires Faithful(true, planned, listed, checks, qs, r) && Distinct(planned + ManifestsOf(listed))
    requires c in checks && c.why.Some?
    ensures KeptManifest(c.manifest, why) in r.kept <==> c.why == Some(why)
    ensures c.manifest !in r.manifests && c.manifest !in r.failed
  {
    CheckedApart(planned, listed, checks, c);
    forall q | q in qs ensures q.manifest != c.manifest {
      if q.manifest == c.manifest {
        AskedWasLetGo(checks, qs, q, c);
      }
    }
    KeptFrom(true, planned, listed, checks, qs, r, KeptManifest(c.manifest, why));
    WhereIs(qs, Fails, c.manifest);
    WhereIs(qs, Deleted, c.manifest);
    hide Spared, LetGo, Asked, Where;
    forall d | d in checks && d.manifest == c.manifest ensures d == c {
      OneCheckEach(checks, c, d);
    }
  }

  /** One that is let go is asked for once, on the view of its re-check, and ends where the answer puts it:
      failed, kept as changed since the plan, or deleted. */
  lemma AskedFate(planned: seq<Manifest>, listed: seq<KeptManifest>, checks: seq<Check>, qs: seq<Request>, r: Report, c: Check, why: KeepReason)
    requires Faithful(true, planned, listed, checks, qs, r) && Distinct(planned + ManifestsOf(listed))
    requires c in checks && c.why == None && c.read.Seen?
    ensures exists q ::
      && q in qs && q.manifest == c.manifest && q.view == c.read.view
      && (c.manifest in r.failed <==> Fails(q))
      && (c.manifest in r.manifests <==> Deleted(q))
      && (KeptManifest(c.manifest, why) in r.kept <==> why == ChangedSincePlan && Outrun(q))
  {
    CheckedApart(planned, listed, checks, c);
    LetGoIs(checks, (c.manifest, c.read.view));
    var i :| 0 <= i < |qs| && Asked(qs)[i] == (c.manifest, c.read.view);
    var q := qs[i];
    forall p | p in qs && p.manifest == c.manifest ensures p == q {
      OneRequestEach(checks, qs, p, q);
    }
    KeptFrom(true, planned, listed, checks, qs, r, KeptManifest(c.manifest, why));
    WhereIs(qs, Fails, c.manifest);
    WhereIs(qs, Deleted, c.manifest);
    hide Spared, LetGo, Asked, Where;
    forall d | d in checks && d.manifest == c.manifest ensures d == c {
      OneCheckEach(checks, c, d);
    }
    assert q in qs;
  }

  lemma {:induction false} LetGoDistinct(checks: seq<Check>)
    requires Distinct(Rechecked(checks))
    ensures forall i, j :: 0 <= i < j < |LetGo(checks)| ==> LetGo(checks)[i].0 != LetGo(checks)[j].0
  {
    if checks != [] {
      var n := |checks| - 1;
      assert Rechecked(checks[..n]) == Rechecked(checks)[..n];
      LetGoDistinct(checks[..n]);
      forall i | 0 <= i < |LetGo(checks[..n])| ensures LetGo(checks[..n])[i].0 != checks[n].manifest {
        LetGoIs(checks[..n], LetGo(checks[..n])[i]);
        var c :| c in checks[..n] && c.manifest == LetGo(checks[..n])[i].0;
        var k :| 0 <= k < n && checks[k] == c;
        assert Rechecked(checks)[k] != Rechecked(checks)[n];
      }
    }
  }

  lemma OneRequestEach(checks: seq<Check>, qs: seq<Request>, p: Request, q: Request)
    requires Asked(qs) == LetGo(checks) && Distinct(Rechecked(checks)) && p in qs && q in qs && p.manifest == q.manifest
    ensures p == q
  {
    LetGoDistinct(checks);
    var i :| 0 <= i < |qs| && qs[i] == p;
    var j :| 0 <= j < |qs| && qs[j] == q;
    assert Asked(qs)[i].0 == Asked(qs)[j].0;
    hide LetGo, Rechecked;
  }
}
