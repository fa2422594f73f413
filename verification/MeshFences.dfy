/** What every step keeps whatever the schedule: which operation may touch a MeshPeer row, and what
    it may do to it. Nothing here assumes one server per node name. */
module MeshFences {
  import opened Wrappers
  import opened MeshAddressing
  import opened MeshProtocol

  /** The calls of an enroll, a worker's or a server's. */
  predicate Enrolling(op: Op) {
    op.Listing? || op.Claiming? || op.ReadingClaim? || op.Posting? || op.Fetching? || op.Putting?
  }

  /** Versions never exceed the datastore's revision. */
  ghost predicate Stamped(db: Db) {
    && (forall n :: n in db.peers ==> db.peers[n].version <= db.revision)
    && (forall i :: i in db.claims ==> db.claims[i].version <= db.revision)
  }

  /** cur was read from row n: while the version stands, the row is exactly cur. */
  ghost predicate RowSnapshot(db: Db, n: Name, cur: Peer) {
    && cur.version <= db.revision
    && (n in db.peers && db.peers[n].version == cur.version ==> db.peers[n] == cur)
  }

  ghost predicate ClaimSnapshot(db: Db, i: nat, cur: Claim) {
    && cur.version <= db.revision
    && (i in db.claims && db.claims[i].version == cur.version ==> db.claims[i] == cur)
  }

  /** A range a worker may hold. */
  ghost predicate WorkerRange(cluster: Prefix, cidr: Cidr) {
    NodeIndexOf(cluster, cidr) != Some(FIRST_SERVER_INDEX)
  }

  /** What an operation knows at each call, under any interleaving. */
  ghost predicate Sound(cluster: Prefix, db: Db, op: Op) {
    match op
    case Claiming(_, job, _, _, cidr, index, _) =>
      NodeIndexOf(cluster, cidr) == Some(index) && (job.Join? ==> WorkerRange(cluster, cidr))
    case ReadingClaim(_, job, _, _, cidr, index, _) =>
      NodeIndexOf(cluster, cidr) == Some(index) && (job.Join? ==> WorkerRange(cluster, cidr))
    case Posting(_, job, _, cidr, _) => job.Join? ==> WorkerRange(cluster, cidr)
    case Fetching(_, job, _, cidr, _) => job.Join? ==> WorkerRange(cluster, cidr)
    case Putting(n, job, _, cidr, _, cur) =>
      RowSnapshot(db, n, cur) && job.Join? != IsServerPeer(cluster, cur) && (job.Join? ==> WorkerRange(cluster, cidr))
    case ReleaseDelete(n, id, _, cur) => RowSnapshot(db, n, cur) && EnrollIdOf(cur) == Some(id)
    case RefreshWrite(n, _, cur) => RowSnapshot(db, n, cur)
    case SweepJudge(n, index, claim) => ClaimSnapshot(db, index, claim) && claim.holder == n
    case SweepDelete(n, index, claim, cur) =>
      RowSnapshot(db, n, cur) && ClaimSnapshot(db, index, claim) && claim.holder == n
    case ClaimDelete(n, todo) =>
      forall k :: 0 <= k < |todo| ==> ClaimSnapshot(db, todo[k].0, todo[k].1) && todo[k].1.holder == n
    case _ => true
  }

  ghost predicate Consistent(cluster: Prefix, s: State) {
    Stamped(s.db) && forall p :: p in s.ops ==> Sound(cluster, s.db, s.ops[p])
  }

  /** Every row and claim of the later datastore is an old one unchanged or newer than the old revision. */
  ghost predicate Evolves(db: Db, db': Db) {
    && db.revision <= db'.revision
    && (forall n :: n in db'.peers ==> (n in db.peers && db'.peers[n] == db.peers[n]) || db'.peers[n].version > db.revision)
    && (forall i :: i in db'.claims ==> (i in db.claims && db'.claims[i] == db.claims[i]) || db'.claims[i].version > db.revision)
  }

  lemma CallEvolves(cluster: Prefix, db: Db, op: Op)
    ensures Evolves(db, Call(cluster, db, op).0)
    ensures Stamped(db) ==> Stamped(Call(cluster, db, op).0)
  {
    if Enrolling(op) {
      hide NodeIndexOf, AfterList, IsServerPeer;
    } else {
      hide NodeIndexOf, HeldClaims, IsServerPeer;
    }
  }

  lemma SoundFrame(cluster: Prefix, db: Db, db': Db, op: Op)
    requires Evolves(db, db') && Sound(cluster, db, op)
    ensures Sound(cluster, db', op)
  {
  }

  lemma TryIndexSound(cluster: Prefix, db: Db, n: Name, job: Job, used: set<nat>, i: nat)
    requires i > FIRST_SERVER_INDEX
    ensures TryIndex(cluster, n, job, used, i).Some? ==> Sound(cluster, db, TryIndex(cluster, n, job, used, i).value)
  {
    if i < Slots(cluster) {
      NodeIndexOfCarve(cluster, i);
    }
  }

  lemma ListSound(cluster: Prefix, db: Db, n: Name, job: Job)
    ensures AfterList(cluster, db, n, job).Some? ==> Sound(cluster, db, AfterList(cluster, db, n, job).value)
  {
    var used := UsedByOthers(cluster, db, n);
    TryIndexSound(cluster, db, n, job, used, NextUnused(used, FIRST_SERVER_INDEX + 1, Slots(cluster)));
  }

  lemma ClaimSound(cluster: Prefix, db: Db, op: Op)
    requires (op.Claiming? || op.ReadingClaim?) && Sound(cluster, db, op)
    ensures Call(cluster, db, op).1.Some? ==> Sound(cluster, Call(cluster, db, op).0, Call(cluster, db, op).1.value)
  {
    TryIndexSound(cluster, Call(cluster, db, op).0, op.n, op.job, op.used, NextUnused(op.used, op.index + 1, Slots(cluster)));
  }

  lemma CallSound(cluster: Prefix, db: Db, op: Op)
    requires Stamped(db) && Sound(cluster, db, op)
    ensures Call(cluster, db, op).1.Some? ==> Sound(cluster, Call(cluster, db, op).0, Call(cluster, db, op).1.value)
  {
    if op.Listing? {
      ListSound(cluster, db, op.n, op.job);
    } else if op.Claiming? || op.ReadingClaim? {
      ClaimSound(cluster, db, op);
    } else {
      CallEvolves(cluster, db, op);
    }
  }

  lemma StepConsistent(cluster: Prefix, s: State, a: Action)
    requires Consistent(cluster, s) && Enabled(s, a)
    ensures Consistent(cluster, Do(cluster, s, a))
  {
    var s' := Do(cluster, s, a);
    if a.Advance? {
      CallEvolves(cluster, s.db, s.ops[a.proc]);
      CallSound(cluster, s.db, s.ops[a.proc]);
    }
    assert Evolves(s.db, s'.db);
    forall p | p in s'.ops && p in s.ops && s'.ops[p] == s.ops[p]
      ensures Sound(cluster, s'.db, s'.ops[p])
    {
      SoundFrame(cluster, s.db, s'.db, s.ops[p]);
    }
  }

  /** Consistency holds in every state of every run. */
  lemma {:induction false} RunConsistent(cluster: Prefix, s: State, acts: seq<Action>)
    requires Consistent(cluster, s) && Possible(cluster, s, acts)
    ensures Consistent(cluster, Run(cluster, s, acts))
    decreases |acts|
  {
    if acts != [] {
      StepConsistent(cluster, s, acts[0]);
      RunConsistent(cluster, Do(cluster, s, acts[0]), acts[1..]);
    }
  }

  // ----- what a step may do to a row -----

  ghost predicate RowDiffers(s: State, s': State, m: Name) {
    (m in s.db.peers) != (m in s'.db.peers) || (m in s.db.peers && m in s'.db.peers && s.db.peers[m] != s'.db.peers[m])
  }

  /** A row leaves the datastore only by its own name's deregistration, by a sweep of exactly the
      row that was judged, or by a release whose enroll id the row carries at that instant. */
  ghost predicate LawfulDelete(op: Op, row: Peer) {
    || op.DeregisterDelete?
    || (op.SweepDelete? && row == op.cur)
    || (op.ReleaseDelete? && EnrollIdOf(row) == Some(op.id))
  }

  /** A row is created with its enroll's key, endpoint and id, and a worker's is never a server's and never at index 0. */
  ghost predicate LawfulCreate(cluster: Prefix, op: Op, row: Peer) {
    && op.Posting?
    && EnrollIdOf(row) == Some(op.job.id)
    && row.cidr == op.cidr && row.key == op.job.key && row.endpoint == op.job.endpoint
    && IsServerPeer(cluster, row) == op.job.Serve?
  }

  /** A row is replaced by an enroll of its own role, which writes its key and endpoint, restamps the id and
      keeps every label and annotation it does not set itself, or by a refresh, which moves the endpoint and nothing else. */
  ghost predicate LawfulReplace(cluster: Prefix, op: Op, old_: Peer, new_: Peer) {
    || (&& op.RefreshWrite?
        && new_ == old_.(endpoint := op.endpoint, version := new_.version)
        && new_.version > old_.version)
    || (&& op.Putting?
        && IsServerPeer(cluster, old_) == op.job.Serve?
        && IsServerPeer(cluster, new_) == op.job.Serve?
        && EnrollIdOf(new_) == Some(op.job.id)
        && new_.cidr == op.cidr && new_.key == op.job.key && new_.endpoint == op.job.endpoint && new_.uid == old_.uid && new_.version > old_.version
        && (forall k :: k in old_.labels && k != SERVER_LABEL ==> k in new_.labels && new_.labels[k] == old_.labels[k])
        && (forall k :: k in old_.annotations && k != ENROLL_ID ==> k in new_.annotations && new_.annotations[k] == old_.annotations[k]))
  }

  /** The change op's call makes to row m, if it makes one, is op's own row and lawful. */
  ghost predicate Lawful(cluster: Prefix, op: Op, db: Db, db': Db, m: Name) {
    && ((m in db.peers) != (m in db'.peers) || (m in db.peers && db.peers[m] != db'.peers[m]) ==> op.n == m)
    && (m in db.peers && m !in db'.peers ==> LawfulDelete(op, db.peers[m]))
    && (m !in db.peers && m in db'.peers ==> LawfulCreate(cluster, op, db'.peers[m]))
    && (m in db.peers && m in db'.peers && db.peers[m] != db'.peers[m] ==> LawfulReplace(cluster, op, db.peers[m], db'.peers[m]))
  }

  ghost predicate RowFence(cluster: Prefix, s: State, a: Action, m: Name)
    requires Enabled(s, a)
  {
    var s' := Do(cluster, s, a);
    RowDiffers(s, s', m) ==> a.Advance? && Lawful(cluster, s.ops[a.proc], s.db, s'.db, m)
  }

  lemma WriteIsLawful(cluster: Prefix, db: Db, op: Op, m: Name)
    requires Stamped(db) && Sound(cluster, db, op) && (op.Posting? || op.Putting? || op.RefreshWrite?)
    ensures Lawful(cluster, op, db, Call(cluster, db, op).0, m)
  {
    if op.Putting? {
      PutIsLawful(cluster, db, op, m);
    }
    hide HeldClaims, AfterList, AfterHolder, LawfulDelete;
  }

  lemma PutIsLawful(cluster: Prefix, db: Db, op: Op, m: Name)
    requires Stamped(db) && Sound(cluster, db, op) && op.Putting?
    ensures Lawful(cluster, op, db, Call(cluster, db, op).0, m)
  {
    hide HeldClaims, AfterList, AfterHolder, AfterFailedWrite, LawfulCreate, LawfulDelete, LawfulReplace, RowOver, IsServerPeer, NodeIndexOf;
    if op.n in db.peers && db.peers[op.n].version == op.cur.version {
      RowOverIsLawful(cluster, op, op.cur, RowOver(op.job, op.cidr, op.cur).(uid := op.cur.uid, version := db.revision + 1));
    }
  }

  /** The row an enroll puts over one of its own role is a lawful replacement. */
  lemma RowOverIsLawful(cluster: Prefix, op: Op, cur: Peer, row: Peer)
    requires op.Putting? && op.job.Join? != IsServerPeer(cluster, cur) && (op.job.Join? ==> WorkerRange(cluster, op.cidr))
    requires row == RowOver(op.job, op.cidr, cur).(uid := cur.uid, version := row.version) && row.version > cur.version
    ensures LawfulReplace(cluster, op, cur, row)
  {
    hide NodeIndexOf;
  }

  lemma OtherCallIsLawful(cluster: Prefix, db: Db, op: Op, m: Name)
    requires Sound(cluster, db, op) && !(op.Posting? || op.Putting? || op.RefreshWrite?)
    ensures Lawful(cluster, op, db, Call(cluster, db, op).0, m)
  {
    hide NodeIndexOf, AfterList, AfterHolder, HeldClaims, IsServerPeer, LawfulReplace, LawfulCreate;
  }

  lemma StepFence(cluster: Prefix, s: State, a: Action, m: Name)
    requires Consistent(cluster, s) && Enabled(s, a)
    ensures RowFence(cluster, s, a, m)
  {
    if a.Advance? {
      var op := s.ops[a.proc];
      if op.Posting? || op.Putting? || op.RefreshWrite? {
        WriteIsLawful(cluster, s.db, op, m);
      } else {
        OtherCallIsLawful(cluster, s.db, op, m);
      }
      hide Call, Lawful;
    }
  }

  /** In every run of any number of servers, with any stale listing and with two servers on one name,
      every change of a MeshPeer row is a lawful one. */
  lemma EveryRowChangeIsLawful(cluster: Prefix, s: State, acts: seq<Action>, a: Action, m: Name)
    requires s.ops == map[] && Stamped(s.db) && Possible(cluster, s, acts)
    requires Enabled(Run(cluster, s, acts), a)
    ensures RowFence(cluster, Run(cluster, s, acts), a, m)
  {
    RunConsistent(cluster, s, acts);
    StepFence(cluster, Run(cluster, s, acts), a, m);
  }

  // ----- claims tried and given back -----

  /** An operation may turn to giving back the claim on its range at index i: a release that finds no row of
      its name, or a server whose row was not written and that created the claim itself. */
  predicate MayGiveBack(cluster: Prefix, db: Db, op: Op, i: nat) {
    match op
    case ReleaseRead(n, _, cidr) => n !in db.peers && NodeIndexOf(cluster, cidr) == Some(i)
    case ReleaseVerify(n, cidr) => n !in db.peers && NodeIndexOf(cluster, cidr) == Some(i)
    case Posting(_, job, _, cidr, created) => job.Serve? && created && NodeIndexOf(cluster, cidr) == Some(i)
    case Fetching(_, job, _, cidr, created) => job.Serve? && created && NodeIndexOf(cluster, cidr) == Some(i)
    case Putting(_, job, _, cidr, created, _) => job.Serve? && created && NodeIndexOf(cluster, cidr) == Some(i)
    case _ => false
  }

  /** In every state, reachable or not, no operation begins to give back any other claim. */
  lemma EveryGiveBackIsLawful(cluster: Prefix, s: State, a: Action, p: nat)
    requires Enabled(s, a) && p in s.ops && !s.ops[p].ClaimRead?
    ensures var s' := Do(cluster, s, a);
      p in s'.ops && s'.ops[p].ClaimRead? ==> s'.ops[p].n == s.ops[p].n && MayGiveBack(cluster, s.db, s.ops[p], s'.ops[p].index)
  {
    hide NodeIndexOf, HeldClaims, IsServerPeer, NextUnused, UsedByOthers;
  }

  /** What an operation does next after k rounds of a create that finds the claim taken (as in full) and a
      read that finds it gone (as in gone). */
  ghost function AfterRounds(cluster: Prefix, full: Db, gone: Db, op: Op, k: nat): (r: Option<Op>) {
    if k == 0 then Some(op) else
      var before := AfterRounds(cluster, full, gone, op, k - 1);
      var lost := if before.Some? then Call(cluster, full, before.value).1 else None;
      if lost.Some? then Call(cluster, gone, lost.value).1 else None
  }

  function WithTries(op: Op, tries: nat): (r: Op)
    requires op.Claiming?
  {
    Claiming(op.n, op.job, op.used, op.own, op.cidr, op.index, tries)
  }

  lemma OneRound(cluster: Prefix, full: Db, gone: Db, op: Op)
    requires op.Claiming? && op.index in full.claims && op.index !in gone.claims
    ensures var lost := Call(cluster, full, op).1;
      lost.Some? && Call(cluster, gone, lost.value).1 == if op.tries > 1 then Some(WithTries(op, op.tries - 1)) else None
  {
  }

  /** A claim that keeps vanishing is tried as often as the operation has tries, and then not again, */
  lemma {:induction false} VanishingClaimIsRetried(cluster: Prefix, full: Db, gone: Db, op: Op, k: nat)
    requires op.Claiming? && op.tries > 0 && op.index in full.claims && op.index !in gone.claims
    ensures AfterRounds(cluster, full, gone, op, k) == if k < op.tries then Some(WithTries(op, op.tries - k)) else None
  {
    hide Call;
    if k > 0 {
      VanishingClaimIsRetried(cluster, full, gone, op, k - 1);
      if k - 1 < op.tries {
        OneRound(cluster, full, gone, WithTries(op, op.tries - (k - 1)));
      }
    }
  }

  /** which is three for every index an operation turns to. */
  lemma EveryIndexHasThreeTries(cluster: Prefix, db: Db, op: Op)
    ensures var next := Call(cluster, db, op).1;
      next.Some? && next.value.Claiming? ==> next.value.tries == 3 || (op.ReadingClaim? && next.value.index == op.index)
  {
    hide NodeIndexOf, HeldClaims, IsServerPeer, NextUnused, UsedByOthers;
  }

  // ----- a superseded join can undo nothing -----

  /** id was handed out, m's row does not carry it, and no enroll of m still in flight would write it. */
  ghost predicate Superseded(s: State, m: Name, id: string) {
    && id in s.minted
    && (m in s.db.peers ==> EnrollIdOf(s.db.peers[m]) != Some(id))
    && (forall p :: p in s.ops && Enrolling(s.ops[p]) && s.ops[p].n == m ==> s.ops[p].job.id != id)
  }

  lemma CallKeepsJob(cluster: Prefix, db: Db, op: Op)
    ensures var op' := Call(cluster, db, op).1;
      op'.Some? ==> op'.value.n == op.n && (Enrolling(op'.value) ==> Enrolling(op) && op'.value.job == op.job)
  {
    hide NodeIndexOf, HeldClaims, IsServerPeer, NextUnused, UsedByOthers;
  }

  lemma StepSuperseded(cluster: Prefix, s: State, a: Action, m: Name, id: string)
    requires Consistent(cluster, s) && Enabled(s, a) && Superseded(s, m, id)
    ensures Superseded(Do(cluster, s, a), m, id)
  {
    StepFence(cluster, s, a, m);
    if a.Advance? {
      CallKeepsJob(cluster, s.db, s.ops[a.proc]);
    }
    hide Call, Sound, IsServerPeer;
  }

  /** Once another enroll of m has replaced the write `id` names, or that write was deleted, no run from
      there on lets a release holding `id` change m's row, whatever the new row's content is. */
  lemma {:induction false} LaterEnrollIsNeverUndone(cluster: Prefix, s: State, acts: seq<Action>, a: Action, m: Name, id: string)
    requires Consistent(cluster, s) && Superseded(s, m, id) && Possible(cluster, s, acts)
    requires Enabled(Run(cluster, s, acts), a) && a.Advance?
    requires var op := Run(cluster, s, acts).ops[a.proc]; op.ReleaseDelete? && op.n == m && op.id == id
    ensures !RowDiffers(Run(cluster, s, acts), Do(cluster, Run(cluster, s, acts), a), m)
    decreases |acts|
  {
    if acts == [] {
      StepFence(cluster, s, a, m);
    } else {
      StepConsistent(cluster, s, acts[0]);
      StepSuperseded(cluster, s, acts[0], m, id);
      LaterEnrollIsNeverUndone(cluster, Do(cluster, s, acts[0]), acts[1..], a, m, id);
    }
  }

  // ----- and an enroll that replaces a row supersedes the one before -----

  /** Enroll ids are used once: every id a row or an enroll in flight carries was handed out, no two enrolls
      share one, and an enroll that still has to write has not written. */
  ghost predicate IdsUsedOnce(s: State) {
    && (forall m :: m in s.db.peers && EnrollIdOf(s.db.peers[m]).Some? ==> EnrollIdOf(s.db.peers[m]).value in s.minted)
    && (forall p :: p in s.ops && Enrolling(s.ops[p]) ==> s.ops[p].job.id in s.minted)
    && (forall p, q :: p in s.ops && q in s.ops && p != q && Enrolling(s.ops[p]) && Enrolling(s.ops[q]) ==>
          s.ops[p].job.id != s.ops[q].job.id)
    && (forall p, m :: p in s.ops && Enrolling(s.ops[p]) && m in s.db.peers ==> EnrollIdOf(s.db.peers[m]) != Some(s.ops[p].job.id))
  }

  /** An enroll is over once it has written a row. */
  lemma WriteEndsEnroll(cluster: Prefix, db: Db, op: Op)
    requires Enrolling(op)
    ensures Call(cluster, db, op).0.peers == db.peers || Call(cluster, db, op).1.None?
  {
    hide NodeIndexOf, HeldClaims, IsServerPeer, NextUnused, UsedByOthers;
  }

  /** The id of a row is its old one, or that of the enroll whose write this step is. */
  lemma StepRowId(cluster: Prefix, s: State, a: Action, m: Name)
    requires Consistent(cluster, s) && Enabled(s, a) && m in Do(cluster, s, a).db.peers
    ensures var id := EnrollIdOf(Do(cluster, s, a).db.peers[m]);
      || (m in s.db.peers && id == EnrollIdOf(s.db.peers[m]))
      || (a.Advance? && Enrolling(s.ops[a.proc]) && id == Some(s.ops[a.proc].job.id) && a.proc !in Do(cluster, s, a).ops)
  {
    StepFence(cluster, s, a, m);
    if a.Advance? && Enrolling(s.ops[a.proc]) {
      WriteEndsEnroll(cluster, s.db, s.ops[a.proc]);
    }
    hide Call, Sound, IsServerPeer;
  }

  /** The enrolls in flight after a step were in flight before it, or are new with a new id. */
  lemma StepOps(cluster: Prefix, s: State, a: Action, p: nat)
    requires Enabled(s, a) && p in Do(cluster, s, a).ops && Enrolling(Do(cluster, s, a).ops[p])
    ensures var op := Do(cluster, s, a).ops[p];
      || (p in s.ops && Enrolling(s.ops[p]) && op.job == s.ops[p].job && op.n == s.ops[p].n)
      || (a.Start? && a.proc == p && a.op == op && op.job.id !in s.minted && op.job.id in Do(cluster, s, a).minted)
  {
    if a.Advance? && a.proc == p {
      CallKeepsJob(cluster, s.db, s.ops[p]);
    }
    hide Call, Sound, IsServerPeer;
  }

  lemma StepIds(cluster: Prefix, s: State, a: Action)
    requires Consistent(cluster, s) && IdsUsedOnce(s) && Enabled(s, a)
    ensures IdsUsedOnce(Do(cluster, s, a)) && s.minted <= Do(cluster, s, a).minted
  {
    hide Call, Sound, EnrollIdOf, Consistent;
    var s' := Do(cluster, s, a);
    assert s.minted <= s'.minted;
    forall p | p in s'.ops && Enrolling(s'.ops[p])
      ensures (p in s.ops && Enrolling(s.ops[p]) && s'.ops[p].job == s.ops[p].job)
              || (a.Start? && a.proc == p && a.op == s'.ops[p] && s'.ops[p].job.id !in s.minted && s'.ops[p].job.id in s'.minted)
    {
      StepOps(cluster, s, a, p);
    }
    forall m | m in s'.db.peers
      ensures var id := EnrollIdOf(s'.db.peers[m]);
        || (m in s.db.peers && id == EnrollIdOf(s.db.peers[m]))
        || (a.Advance? && Enrolling(s.ops[a.proc]) && id == Some(s.ops[a.proc].job.id) && a.proc !in s'.ops)
    {
      StepRowId(cluster, s, a, m);
    }
    hide Do;
  }

  lemma {:induction false} RunIds(cluster: Prefix, s: State, acts: seq<Action>)
    requires Consistent(cluster, s) && IdsUsedOnce(s) && Possible(cluster, s, acts)
    ensures Consistent(cluster, Run(cluster, s, acts)) && IdsUsedOnce(Run(cluster, s, acts))
    decreases |acts|
  {
    hide Do, Consistent, IdsUsedOnce;
    if acts != [] {
      StepConsistent(cluster, s, acts[0]);
      StepIds(cluster, s, acts[0]);
      RunIds(cluster, Do(cluster, s, acts[0]), acts[1..]);
    }
  }

  /** A step after which the row no longer carries its id supersedes that id. */
  lemma ReplacedIsSuperseded(cluster: Prefix, s: State, a: Action, m: Name, id: string)
    requires Consistent(cluster, s) && IdsUsedOnce(s) && Enabled(s, a)
    requires m in s.db.peers && EnrollIdOf(s.db.peers[m]) == Some(id)
    requires var s' := Do(cluster, s, a); m in s'.db.peers ==> EnrollIdOf(s'.db.peers[m]) != Some(id)
    ensures Superseded(Do(cluster, s, a), m, id)
  {
    StepIds(cluster, s, a);
    var s' := Do(cluster, s, a);
    forall p | p in s'.ops && Enrolling(s'.ops[p]) && s'.ops[p].n == m ensures s'.ops[p].job.id != id {
      StepOps(cluster, s, a, p);
    }
    hide Do;
  }

  /** End to end, over any run of any number of servers: once a step has replaced or removed the write an id
      names, no release holding that id changes the row again, whatever runs in between. */
  lemma ReplacedWriteIsNeverUndone(cluster: Prefix, s: State, before: seq<Action>, a: Action, since: seq<Action>, b: Action, m: Name, id: string)
    requires s.ops == map[] && Stamped(s.db) && IdsUsedOnce(s) && Possible(cluster, s, before) && Enabled(Run(cluster, s, before), a)
    requires var t := Run(cluster, s, before); m in t.db.peers && EnrollIdOf(t.db.peers[m]) == Some(id)
    requires var t' := Do(cluster, Run(cluster, s, before), a);
      (m in t'.db.peers ==> EnrollIdOf(t'.db.peers[m]) != Some(id)) && Possible(cluster, t', since)
    requires var u := Run(cluster, Do(cluster, Run(cluster, s, before), a), since);
      Enabled(u, b) && b.Advance? && u.ops[b.proc].ReleaseDelete? && u.ops[b.proc].n == m && u.ops[b.proc].id == id
    ensures var u := Run(cluster, Do(cluster, Run(cluster, s, before), a), since); !RowDiffers(u, Do(cluster, u, b), m)
  {
    hide Do, IdsUsedOnce, Superseded, Run;
    var t := Run(cluster, s, before);
    RunIds(cluster, s, before);
    StepConsistent(cluster, t, a);
    ReplacedIsSuperseded(cluster, t, a, m, id);
    LaterEnrollIsNeverUndone(cluster, Do(cluster, t, a), since, b, m, id);
  }
}
