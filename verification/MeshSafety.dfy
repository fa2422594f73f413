/** Range uniqueness: with each node name handled by one server at a time, no two MeshPeers ever hold
    one range, and every row an enroll writes has its range claimed by its own name. */
module MeshSafety {
  import opened Wrappers
  import opened MeshAddressing
  import opened MeshProtocol
  import opened MeshFences

  ghost predicate DistinctRanges(db: Db) {
    forall a, b :: a in db.peers && b in db.peers && a != b ==> !SameRange(db.peers[a].cidr, db.peers[b].cidr)
  }

  /** No row but n's is at cidr. */
  ghost predicate Vacant(db: Db, n: Name, cidr: Cidr) {
    forall m :: m in db.peers && m != n ==> !SameRange(db.peers[m].cidr, cidr)
  }

  /** The row the operation read as its own, or its absence, still stands. */
  ghost predicate OwnRow(db: Db, n: Name, own: Option<Peer>) {
    if own.Some? then n in db.peers && db.peers[n].cidr == own.value.cidr else n !in db.peers
  }

  /** The range about to be written: the row's own range again, or a vacant one. */
  ghost predicate Target(cluster: Prefix, db: Db, n: Name, own: Option<Peer>, cidr: Cidr) {
    && OwnRow(db, n, own)
    && (own.Some? ==> cidr == own.value.cidr || SameRange(cidr, own.value.cidr))
    && (own.None? ==> NodeIndexOf(cluster, cidr).Some? && Vacant(db, n, cidr))
    && (NodeIndexOf(cluster, cidr).Some? ==> HeldBy(db, NodeIndexOf(cluster, cidr).value, n))
  }

  /** What an operation knows at each call when no other server handles its name. */
  ghost predicate Alone(cluster: Prefix, db: Db, op: Op) {
    match op
    case Claiming(n, _, used, own, cidr, index, _) =>
      OwnRow(db, n, own) && (own.Some? ==> cidr == own.value.cidr || SameRange(cidr, own.value.cidr)) && (own.None? ==> index !in used)
    case ReadingClaim(n, _, used, own, cidr, index, _) =>
      OwnRow(db, n, own) && (own.Some? ==> cidr == own.value.cidr || SameRange(cidr, own.value.cidr)) && (own.None? ==> index !in used)
    case Posting(n, _, own, cidr, _) => Target(cluster, db, n, own, cidr)
    case Fetching(n, _, own, cidr, _) => Target(cluster, db, n, own, cidr)
    case Putting(n, _, own, cidr, _, _) => Target(cluster, db, n, own, cidr)
    case ReleaseVerify(n, _) => n !in db.peers
    case DeregisterList(n) => n !in db.peers
    case SweepDelete(n, _, _, cur) => RowIs(db, n, cur)
    case _ => true
  }

  /** op may delete its own name's claim on index i. */
  ghost predicate MayDrop(cluster: Prefix, op: Op, i: nat) {
    match op
    case Posting(_, job, _, cidr, created) => job.Serve? && created && NodeIndexOf(cluster, cidr) == Some(i)
    case Fetching(_, job, _, cidr, created) => job.Serve? && created && NodeIndexOf(cluster, cidr) == Some(i)
    case Putting(_, job, _, cidr, created, _) => job.Serve? && created && NodeIndexOf(cluster, cidr) == Some(i)
    case ClaimRead(_, index) => index == i
    case ClaimDelete(_, todo) => exists k :: 0 <= k < |todo| && todo[k].0 == i
    case _ => false
  }

  /** P's row is at index i, and P's claim on i is missing or may go away under it. */
  ghost predicate Exposed(cluster: Prefix, s: State, P: Name, i: nat) {
    && P in s.db.peers
    && NodeIndexOf(cluster, s.db.peers[P].cidr) == Some(i)
    && (!HeldBy(s.db, i, P) || exists p :: p in s.ops && s.ops[p].n == P && MayDrop(cluster, s.ops[p], i))
  }

  /** An operation still looking for a vacant range, with the listing it looks past. */
  ghost predicate Searching(op: Op) {
    (op.Claiming? || op.ReadingClaim?) && op.own.None?
  }

  /** Every exposed row is in the listing of every operation still searching. */
  ghost predicate Covered(cluster: Prefix, s: State) {
    forall p, P, i :: p in s.ops && Searching(s.ops[p]) && P != s.ops[p].n && Exposed(cluster, s, P, i) ==> i in s.ops[p].used
  }

  ghost predicate OneOpPerName(s: State) {
    forall p, q :: p in s.ops && q in s.ops && p != q ==> s.ops[p].n != s.ops[q].n
  }

  ghost predicate Safe(cluster: Prefix, s: State) {
    && Consistent(cluster, s)
    && OneOpPerName(s)
    && DistinctRanges(s.db)
    && (forall p :: p in s.ops ==> Alone(cluster, s.db, s.ops[p]))
    && Covered(cluster, s)
  }

  // ----- one call, seen from its own operation -----

  /** A call changes no row but its own name's, deletes no other name's claim and takes none over. */
  lemma CallTouchesOwn(cluster: Prefix, db: Db, op: Op, m: Name)
    requires Sound(cluster, db, op) && m != op.n
    ensures var db' := Call(cluster, db, op).0;
      && ((m in db'.peers) == (m in db.peers))
      && (m in db.peers ==> db'.peers[m] == db.peers[m])
      && (forall i :: HeldBy(db, i, m) <==> HeldBy(db', i, m))
  {
  }

  /** Winning an index outside the listing finds the range vacant. */
  lemma WonRangeIsVacant(cluster: Prefix, s: State, p: nat)
    requires Carvable(cluster) && Safe(cluster, s) && p in s.ops && Searching(s.ops[p])
    requires var op := s.ops[p]; op.index !in s.db.claims || HeldBy(s.db, op.index, op.n)
    ensures Vacant(s.db, s.ops[p].n, s.ops[p].cidr)
  {
    var op := s.ops[p];
    forall m | m in s.db.peers && m != op.n ensures !SameRange(s.db.peers[m].cidr, op.cidr) {
      IndexIdentifiesRange(cluster, op.cidr, s.db.peers[m].cidr);
      if NodeIndexOf(cluster, s.db.peers[m].cidr) == Some(op.index) {
        assert Exposed(cluster, s, m, op.index);
      }
    }
  }

  lemma SearchNext(cluster: Prefix, n: Name, job: Job, used: set<nat>, from: nat, db: Db)
    requires n !in db.peers
    ensures var o := TryIndex(cluster, n, job, used, NextUnused(used, from, Slots(cluster)));
      o.Some? ==> Alone(cluster, db, o.value)
  {
  }

  lemma ListAlone(cluster: Prefix, db: Db, n: Name, job: Job)
    requires Carvable(cluster)
    ensures AfterList(cluster, db, n, job).Some? ==> Alone(cluster, db, AfterList(cluster, db, n, job).value)
  {
    var used := UsedByOthers(cluster, db, n);
    if n !in db.peers {
      SearchNext(cluster, n, job, used, FIRST_SERVER_INDEX + 1, db);
    }
    if job.Serve? && NodeIndexOf(cluster, job.self).Some? && Vacant(db, n, job.self) {
      forall m | m in db.peers && m != n ensures NodeIndexOf(cluster, db.peers[m].cidr) != NodeIndexOf(cluster, job.self) {
        IndexIdentifiesRange(cluster, job.self, db.peers[m].cidr);
      }
    }
  }

  lemma ClaimAlone(cluster: Prefix, s: State, p: nat)
    requires Carvable(cluster) && Safe(cluster, s) && p in s.ops && (s.ops[p].Claiming? || s.ops[p].ReadingClaim?)
    ensures var (db', op') := Call(cluster, s.db, s.ops[p]); op'.Some? ==> Alone(cluster, db', op'.value)
  {
    var op := s.ops[p];
    if op.own.None? {
      SearchNext(cluster, op.n, op.job, op.used, op.index + 1, s.db);
      if op.index !in s.db.claims || HeldBy(s.db, op.index, op.n) {
        WonRangeIsVacant(cluster, s, p);
      }
    }
  }

  lemma CallAlone(cluster: Prefix, s: State, p: nat)
    requires Carvable(cluster) && Safe(cluster, s) && p in s.ops
    ensures var (db', op') := Call(cluster, s.db, s.ops[p]); op'.Some? ==> Alone(cluster, db', op'.value)
  {
    var op := s.ops[p];
    if op.Listing? {
      ListAlone(cluster, s.db, op.n, op.job);
    } else if op.Claiming? || op.ReadingClaim? {
      ClaimAlone(cluster, s, p);
    }
  }

  // ----- one call, seen from everyone else -----

  /** The rows other than n's keep clear of each other and of n's after n's call. */
  lemma CallDistinct(cluster: Prefix, s: State, p: nat)
    requires Safe(cluster, s) && p in s.ops
    ensures DistinctRanges(Call(cluster, s.db, s.ops[p]).0)
  {
    var op, db' := s.ops[p], Call(cluster, s.db, s.ops[p]).0;
    forall m | m in db'.peers && op.n in db'.peers && m != op.n
      ensures !SameRange(db'.peers[op.n].cidr, db'.peers[m].cidr)
    {
      CallTouchesOwn(cluster, s.db, op, m);
      StepFence(cluster, s, Advance(p), op.n);
    }
    forall a, b | a in db'.peers && b in db'.peers && a != b && a != op.n && b != op.n
      ensures !SameRange(db'.peers[a].cidr, db'.peers[b].cidr)
    {
      CallTouchesOwn(cluster, s.db, op, a);
      CallTouchesOwn(cluster, s.db, op, b);
    }
  }

  lemma OtherStaysAlone(cluster: Prefix, s: State, p: nat, q: nat)
    requires Carvable(cluster) && Safe(cluster, s) && p in s.ops && q in s.ops && p != q
    ensures Alone(cluster, Call(cluster, s.db, s.ops[p]).0, s.ops[q])
  {
    var op, other := s.ops[p], s.ops[q];
    CallTouchesOwn(cluster, s.db, op, other.n);
    if (other.Posting? || other.Fetching? || other.Putting?) && other.own.None? {
      StaysVacant(cluster, s, p, other.n, other.cidr);
    }
  }

  /** A range another name has claimed and found vacant stays vacant. */
  lemma StaysVacant(cluster: Prefix, s: State, p: nat, m: Name, cidr: Cidr)
    requires Carvable(cluster) && Safe(cluster, s) && p in s.ops && s.ops[p].n != m
    requires NodeIndexOf(cluster, cidr).Some? && HeldBy(s.db, NodeIndexOf(cluster, cidr).value, m) && Vacant(s.db, m, cidr)
    ensures Vacant(Call(cluster, s.db, s.ops[p]).0, m, cidr)
  {
    var op, db' := s.ops[p], Call(cluster, s.db, s.ops[p]).0;
    forall k | k in db'.peers && k != m ensures !SameRange(db'.peers[k].cidr, cidr) {
      if k != op.n {
        CallTouchesOwn(cluster, s.db, op, k);
      } else if op.Posting? && k !in s.db.peers {
        IndexIdentifiesRange(cluster, cidr, op.cidr);
      }
    }
  }

  /** A call exposes no row that was not exposed before it. */
  lemma NothingNewlyExposed(cluster: Prefix, s: State, a: Action, P: Name, i: nat)
    requires Carvable(cluster) && Safe(cluster, s) && Enabled(s, a) && OneServerPerName(s, a)
    requires Exposed(cluster, Do(cluster, s, a), P, i)
    ensures Exposed(cluster, s, P, i)
  {
    var s' := Do(cluster, s, a);
    match a
    case Start(p, op) =>
    case Stop(p) =>
    case WriteError(p) =>
    case Backfill(_, _, _) =>
    case Advance(p) =>
      var op := s.ops[p];
      CallKeepsJob(cluster, s.db, op);
      if P != op.n {
        CallTouchesOwn(cluster, s.db, op, P);
      } else {
        OwnExposure(cluster, s, p, i);
      }
  }

  lemma OwnExposure(cluster: Prefix, s: State, p: nat, i: nat)
    requires Carvable(cluster) && Safe(cluster, s) && p in s.ops
    requires Exposed(cluster, Do(cluster, s, Advance(p)), s.ops[p].n, i)
    ensures Exposed(cluster, s, s.ops[p].n, i)
  {
    var op, s' := s.ops[p], Do(cluster, s, Advance(p));
    CallKeepsJob(cluster, s.db, op);
    assert forall q :: q in s'.ops && s'.ops[q].n == op.n ==> q == p;
    var (db', op') := Call(cluster, s.db, op);
    if op.Listing? || op.Claiming? || op.ReadingClaim? {
      ClaimingExposure(cluster, s.db, op, i);
    } else if op.Posting? || op.Fetching? || op.Putting? {
      WritingExposure(cluster, s.db, op, i);
    } else {
      DroppingExposure(cluster, s.db, op, i);
    }
  }

  /** Exposed, for the one operation op (if any) of P's name. */
  ghost predicate ExposedUnder(cluster: Prefix, db: Db, op: Option<Op>, P: Name, i: nat) {
    && P in db.peers
    && NodeIndexOf(cluster, db.peers[P].cidr) == Some(i)
    && (!HeldBy(db, i, P) || (op.Some? && MayDrop(cluster, op.value, i)))
  }

  lemma ClaimingExposure(cluster: Prefix, db: Db, op: Op, i: nat)
    requires Carvable(cluster) && Sound(cluster, db, op) && Alone(cluster, db, op)
    requires op.Listing? || op.Claiming? || op.ReadingClaim?
    requires var (db', op') := Call(cluster, db, op); ExposedUnder(cluster, db', op', op.n, i)
    ensures ExposedUnder(cluster, db, Some(op), op.n, i)
  {
  }

  lemma WritingExposure(cluster: Prefix, db: Db, op: Op, i: nat)
    requires Carvable(cluster) && Sound(cluster, db, op) && Alone(cluster, db, op)
    requires op.Posting? || op.Fetching? || op.Putting?
    requires var (db', op') := Call(cluster, db, op); ExposedUnder(cluster, db', op', op.n, i)
    ensures ExposedUnder(cluster, db, Some(op), op.n, i)
  {
    if op.own.Some? && NodeIndexOf(cluster, op.cidr).Some? {
      IndexIdentifiesRange(cluster, op.cidr, op.own.value.cidr);
    }
  }

  lemma DroppingExposure(cluster: Prefix, db: Db, op: Op, i: nat)
    requires Sound(cluster, db, op) && Alone(cluster, db, op) && !Enrolling(op)
    requires var (db', op') := Call(cluster, db, op); ExposedUnder(cluster, db', op', op.n, i)
    ensures ExposedUnder(cluster, db, Some(op), op.n, i)
  {
    if op.ClaimDelete? && op.todo != [] {
      assert MayDrop(cluster, op, op.todo[0].0);
    }
  }

  // ----- every step and every run -----

  lemma AfterListSearches(cluster: Prefix, db: Db, n: Name, job: Job, P: Name)
    requires AfterList(cluster, db, n, job).Some? && Searching(AfterList(cluster, db, n, job).value)
    requires P in db.peers && P != n && NodeIndexOf(cluster, db.peers[P].cidr).Some?
    ensures NodeIndexOf(cluster, db.peers[P].cidr).value in AfterList(cluster, db, n, job).value.used
  {
  }

  lemma StepCovered(cluster: Prefix, s: State, a: Action)
    requires Carvable(cluster) && Safe(cluster, s) && Enabled(s, a) && OneServerPerName(s, a)
    ensures Covered(cluster, Do(cluster, s, a))
  {
    var s' := Do(cluster, s, a);
    forall p, P, i | p in s'.ops && Searching(s'.ops[p]) && P != s'.ops[p].n && Exposed(cluster, s', P, i)
      ensures i in s'.ops[p].used
    {
      NothingNewlyExposed(cluster, s, a, P, i);
      if a.Advance? && a.proc == p {
        CallKeepsJob(cluster, s.db, s.ops[p]);
        if s.ops[p].Listing? {
          AfterListSearches(cluster, s.db, s.ops[p].n, s.ops[p].job, P);
        }
      }
    }
  }

  lemma StepDistinct(cluster: Prefix, s: State, a: Action)
    requires Safe(cluster, s) && Enabled(s, a) && OneServerPerName(s, a)
    ensures DistinctRanges(Do(cluster, s, a).db) && OneOpPerName(Do(cluster, s, a))
  {
    if a.Advance? {
      CallKeepsJob(cluster, s.db, s.ops[a.proc]);
      CallDistinct(cluster, s, a.proc);
    }
    hide Call, Sound, Alone, Exposed;
  }

  lemma StepAlone(cluster: Prefix, s: State, a: Action, q: nat)
    requires Carvable(cluster) && Safe(cluster, s) && Enabled(s, a) && OneServerPerName(s, a) && q in Do(cluster, s, a).ops
    ensures Alone(cluster, Do(cluster, s, a).db, Do(cluster, s, a).ops[q])
  {
    if a.Advance? {
      if q == a.proc {
        CallAlone(cluster, s, q);
      } else {
        OtherStaysAlone(cluster, s, a.proc, q);
      }
      hide Call, Alone, Exposed, Sound;
    } else {
      hide NodeIndexOf, SameRange, Call, Exposed, Sound;
    }
  }

  lemma StepSafe(cluster: Prefix, s: State, a: Action)
    requires Carvable(cluster) && Safe(cluster, s) && Enabled(s, a) && OneServerPerName(s, a)
    ensures Safe(cluster, Do(cluster, s, a))
  {
    StepConsistent(cluster, s, a);
    StepCovered(cluster, s, a);
    StepDistinct(cluster, s, a);
    forall q | q in Do(cluster, s, a).ops ensures Alone(cluster, Do(cluster, s, a).db, Do(cluster, s, a).ops[q]) {
      StepAlone(cluster, s, a, q);
    }
    hide Do, Alone, Consistent, Covered, DistinctRanges;
  }

  lemma {:induction false} RunSafe(cluster: Prefix, s: State, acts: seq<Action>)
    requires Carvable(cluster) && Safe(cluster, s) && Possible(cluster, s, acts) && Disciplined(cluster, s, acts)
    ensures Safe(cluster, Run(cluster, s, acts))
    decreases |acts|
  {
    if acts != [] {
      StepSafe(cluster, s, acts[0]);
      RunSafe(cluster, Do(cluster, s, acts[0]), acts[1..]);
    }
  }

  /** No server is working yet. The claims may be anything: absent, or held by a name that holds no row. */
  ghost predicate Quiet(s: State) {
    s.ops == map[] && Stamped(s.db) && DistinctRanges(s.db)
  }

  /** Range uniqueness, over every interleaving of every operation of every server. */
  lemma RangesStayDistinct(cluster: Prefix, s: State, acts: seq<Action>)
    requires Carvable(cluster) && Quiet(s) && Possible(cluster, s, acts) && Disciplined(cluster, s, acts)
    ensures DistinctRanges(Run(cluster, s, acts).db)
  {
    RunSafe(cluster, s, acts);
  }

  /** Every row an enroll writes has its range claimed by its own name at that instant. */
  lemma WrittenRangeIsClaimed(cluster: Prefix, s: State, acts: seq<Action>, p: nat, i: nat)
    requires Carvable(cluster) && Quiet(s) && Possible(cluster, s, acts) && Disciplined(cluster, s, acts)
    requires var t := Run(cluster, s, acts); p in t.ops && Enrolling(t.ops[p])
    requires var t := Run(cluster, s, acts); RowDiffers(t, Do(cluster, t, Advance(p)), t.ops[p].n)
    requires var t := Run(cluster, s, acts); NodeIndexOf(cluster, Do(cluster, t, Advance(p)).db.peers[t.ops[p].n].cidr) == Some(i)
    ensures var t := Run(cluster, s, acts); HeldBy(Do(cluster, t, Advance(p)).db, i, t.ops[p].n)
  {
    RunSafe(cluster, s, acts);
    StepFence(cluster, Run(cluster, s, acts), Advance(p), Run(cluster, s, acts).ops[p].n);
  }
}
