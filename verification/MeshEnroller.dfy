/** One server's enroller with nobody else at work: the join and its undo as the source's own sequence
    of calls, each proved to be a run of the shared protocol and to allocate exactly. */
module MeshEnroller {
  import opened Wrappers
  import opened MeshAddressing
  import opened MeshProtocol

  /** k calls of one operation with no other server in between. */
  ghost function Solo(cluster: Prefix, db: Db, op: Option<Op>, k: nat): (Db, Option<Op>)
    decreases k
  {
    if k == 0 || op.None? then (db, op)
    else
      var (db', op') := Call(cluster, db, op.value);
      Solo(cluster, db', op', k - 1)
  }

  lemma {:induction false} SoloOneMore(cluster: Prefix, db: Db, op: Option<Op>, k: nat)
    requires Solo(cluster, db, op, k).1.Some?
    ensures var (d, o) := Solo(cluster, db, op, k); Solo(cluster, db, op, k + 1) == Call(cluster, d, o.value)
    decreases k
  {
    if k == 0 {
      var (d, o) := Call(cluster, db, op.value);
      assert Solo(cluster, d, o, 0) == (d, o);
    } else {
      var (d, o) := Call(cluster, db, op.value);
      SoloOneMore(cluster, d, o, k - 1);
    }
  }

  lemma SoloStart(cluster: Prefix, db: Db, op: Option<Op>)
    ensures Solo(cluster, db, op, 0) == (db, op)
  {
  }

  /** The calls of writePeer over an existing row of the writer's role: the refused create, the read, the put. */
  lemma RowPut(cluster: Prefix, db: Db, start: Option<Op>, k: nat, n: Name, job: Job, own: Peer, cidr: Cidr, mid: Db)
    requires n in mid.peers && mid.peers[n] == own && job.Join? != IsServerPeer(cluster, own)
    requires Solo(cluster, db, start, k).0 == mid
    requires Solo(cluster, db, start, k).1 in {Some(Posting(n, job, Some(own), cidr, true)), Some(Posting(n, job, Some(own), cidr, false))}
    ensures Solo(cluster, db, start, k + 3) == (ReplacePeer(mid, n, RowOver(job, cidr, own)), None)
  {
    SoloOneMore(cluster, db, start, k);
    SoloOneMore(cluster, db, start, k + 1);
    SoloOneMore(cluster, db, start, k + 2);
  }

  /** Index i is n's for the taking: a node range no row is at, whose claim is absent or n's already. */
  ghost predicate Free(cluster: Prefix, db: Db, n: Name, i: nat) {
    && FIRST_SERVER_INDEX < i < Slots(cluster)
    && (forall m :: m in db.peers ==> NodeIndexOf(cluster, db.peers[m].cidr) != Some(i))
    && (i in db.claims ==> db.claims[i].holder == n)
  }

  /** The calls of one turn of the claim loop: the create, and the read when it found the claim taken. */
  lemma TryCalls(cluster: Prefix, db: Db, start: Option<Op>, k: nat, n: Name, job: Job, used: set<nat>, index: nat)
    requires job.Join? && index < Slots(cluster)
    requires Solo(cluster, db, start, k) == (db, TryIndex(cluster, n, job, used, index))
    ensures var won := (created: bool) => Posting(n, job, None, Ipv4(NodeCidr(cluster, index).value), created);
      if index !in db.claims then
        Solo(cluster, db, start, k + 1) == (CreateClaim(db, index, n, false), Some(won(true)))
      else if db.claims[index].holder == n then
        Solo(cluster, db, start, k + 2) == (db, Some(won(false)))
      else
        Solo(cluster, db, start, k + 2) == (db, TryIndex(cluster, n, job, used, NextUnused(used, index + 1, Slots(cluster))))
  {
    SoloOneMore(cluster, db, start, k);
    if index in db.claims {
      SoloOneMore(cluster, db, start, k + 1);
    }
  }

  /** An index the listing does not hold is free exactly when n can have its claim. */
  lemma FreeIffClaimable(cluster: Prefix, db: Db, n: Name, index: nat)
    requires n !in db.peers && FIRST_SERVER_INDEX < index < Slots(cluster) && index !in UsedByOthers(cluster, db, n)
    ensures Free(cluster, db, n, index) <==> index !in db.claims || db.claims[index].holder == n
  {
  }

  lemma UsedIsNotFree(cluster: Prefix, db: Db, n: Name, index: nat)
    requires index in UsedByOthers(cluster, db, n)
    ensures !Free(cluster, db, n, index)
  {
  }

  /** The calls of a claim's release: the read, and over n's own claim the delete and the end. */
  lemma ClaimFreed(cluster: Prefix, db: Db, start: Option<Op>, k: nat, n: Name, index: nat, mid: Db)
    requires Solo(cluster, db, start, k) == (mid, Some(ClaimRead(n, index)))
    ensures HeldBy(mid, index, n) ==> Solo(cluster, db, start, k + 3) == (DeleteClaim(mid, index), None)
    ensures !HeldBy(mid, index, n) ==> Solo(cluster, db, start, k + 1) == (mid, None)
  {
    hide NodeIndexOf, IsServerPeer;
    SoloOneMore(cluster, db, start, k);
    if HeldBy(mid, index, n) {
      SoloOneMore(cluster, db, start, k + 1);
      SoloOneMore(cluster, db, start, k + 2);
    }
  }

  /** A server whose row was not written gives back the claim it made, and only that one; a worker's claim is
      left to its release. */
  lemma FailedServerWriteGivesBack(cluster: Prefix, db: Db, op: Op, i: nat)
    requires (op.Posting? || op.Fetching? || op.Putting?) && NodeIndexOf(cluster, op.cidr) == Some(i) && HeldBy(db, i, op.n)
    ensures op.job.Serve? && op.created ==> Solo(cluster, db, AfterFailedWrite(cluster, op), 3) == (DeleteClaim(db, i), None)
    ensures op.job.Join? || !op.created ==> AfterFailedWrite(cluster, op) == None
  {
    if op.job.Serve? && op.created {
      SoloStart(cluster, db, AfterFailedWrite(cluster, op));
      ClaimFreed(cluster, db, AfterFailedWrite(cluster, op), 0, op.n, i, db);
    }
    hide Solo, NodeIndexOf;
  }

  datatype Outcome = Enrolled(carved: bool, cidr: Cidr) | Refused

  /** The write of an enroll that has won its range, over no row. */
  lemma PostingCreates(cluster: Prefix, db: Db, n: Name, job: Job, cidr: Cidr, created: bool)
    requires n !in db.peers
    ensures Call(cluster, db, Posting(n, job, None, cidr, created)) == (CreatePeer(db, n, RowOf(job, cidr)), None)
  {
  }

  /** No other row is at the server's range, and its own row, if any, is a server's at that very range, under
      its own key when the reservation comes through a join. */
  predicate RoomFor(cluster: Prefix, db: Db, n: Name, job: Job)
    requires job.Serve?
  {
    && (forall m :: m in db.peers && m != n ==> !SameRange(db.peers[m].cidr, job.self))
    && (n in db.peers ==> IsServerPeer(cluster, db.peers[n]) && SameRange(db.peers[n].cidr, job.self)
                          && (job.memberRoute ==> db.peers[n].key == job.key))
  }

  /** A server may take its range. */
  predicate MayServe(cluster: Prefix, db: Db, n: Name, job: Job)
    requires job.Serve?
  {
    var idx := NodeIndexOf(cluster, job.self);
    idx.Some? && RoomFor(cluster, db, n, job) && (idx.value in db.claims ==> HeldBy(db, idx.value, n))
  }

  /** The indices n holds claims on. */
  function HeldIndices(db: Db, n: Name): (r: set<nat>) {
    set i | i in db.claims && db.claims[i].holder == n
  }

  function Indices(todo: seq<(nat, Claim)>): (r: set<nat>) {
    if todo == [] then {} else {todo[0].0} + Indices(todo[1..])
  }

  /** A list of claims as they stand, each once. */
  ghost predicate Standing(db: Db, todo: seq<(nat, Claim)>) {
    todo != [] ==>
      && todo[0].0 in db.claims && db.claims[todo[0].0] == todo[0].1
      && todo[0].0 !in Indices(todo[1..]) && Standing(db, todo[1..])
  }

  lemma StandingPrepend(db: Db, i: nat, rest: seq<(nat, Claim)>)
    requires Standing(db, rest) && i in db.claims && i !in Indices(rest)
    ensures Standing(db, [(i, db.claims[i])] + rest) && Indices([(i, db.claims[i])] + rest) == Indices(rest) + {i}
  {
    assert ([(i, db.claims[i])] + rest)[1..] == rest;
  }

  lemma {:induction false} StandingWithout(db: Db, i: nat, rest: seq<(nat, Claim)>)
    requires Standing(db, rest) && i !in Indices(rest)
    ensures Standing(DeleteClaim(db, i), rest)
  {
    if rest != [] {
      StandingWithout(db, i, rest[1..]);
    }
  }

  lemma MinusMore(m: map<nat, Claim>, x: set<nat>, i: nat)
    ensures m - x - {i} == m - (x + {i}) == m - ({i} + x) && m - {i} - x == m - ({i} + x)
  {
  }

  lemma HeldClaimsUnfold(db: Db, n: Name, todo: set<nat>) returns (i: nat)
    requires todo != {} && todo <= db.claims.Keys
    ensures i in todo && HeldClaims(db, n, todo) ==
            (if HeldBy(db, i, n) then [(i, db.claims[i])] + HeldClaims(db, n, todo - {i}) else HeldClaims(db, n, todo - {i}))
  {
    i :| i in todo && HeldClaims(db, n, todo) ==
         (if HeldBy(db, i, n) then [(i, db.claims[i])] + HeldClaims(db, n, todo - {i}) else HeldClaims(db, n, todo - {i}));
  }

  lemma {:induction false} HeldClaimsStand(db: Db, n: Name, todo: set<nat>)
    requires todo <= db.claims.Keys
    ensures Standing(db, HeldClaims(db, n, todo)) && Indices(HeldClaims(db, n, todo)) == HeldIndices(db, n) * todo
    ensures |HeldClaims(db, n, todo)| == |HeldIndices(db, n) * todo|
  {
    if todo == {} {
      assert HeldClaims(db, n, todo) == [];
    } else {
      var i := HeldClaimsUnfold(db, n, todo);
      HeldClaimsStand(db, n, todo - {i});
      hide HeldClaims, Standing, Indices, HeldIndices;
      HeldStep(db, n, todo, i);
      if HeldBy(db, i, n) {
        StandingPrepend(db, i, HeldClaims(db, n, todo - {i}));
      }
    }
  }

  lemma HeldStep(db: Db, n: Name, todo: set<nat>, i: nat)
    requires i in todo
    ensures i !in HeldIndices(db, n) * (todo - {i})
    ensures HeldIndices(db, n) * todo == HeldIndices(db, n) * (todo - {i}) + if HeldBy(db, i, n) then {i} else {}
  {
  }

  /** The calls that delete a list of standing claims, one each and one more to end. */
  lemma {:induction false} ClaimsDeleted(cluster: Prefix, db: Db, start: Option<Op>, k: nat, n: Name, todo: seq<(nat, Claim)>, mid: Db)
    requires Solo(cluster, db, start, k) == (mid, Some(ClaimDelete(n, todo))) && Standing(mid, todo)
    ensures Solo(cluster, db, start, k + |todo| + 1) == (Db(mid.peers, mid.claims - Indices(todo), mid.revision + |todo|), None)
    decreases |todo|
  {
    hide NodeIndexOf, IsServerPeer, Solo, HeldClaims;
    SoloOneMore(cluster, db, start, k);
    if todo == [] {
      assert mid.claims - Indices(todo) == mid.claims;
    } else {
      var next, rest := DeleteClaim(mid, todo[0].0), todo[1..];
      assert ClaimIs(mid, todo[0].0, todo[0].1);
      StandingWithout(mid, todo[0].0, rest);
      ClaimsDeleted(cluster, db, start, k + 1, n, rest, next);
      MinusMore(mid.claims, Indices(rest), todo[0].0);
    }
  }

  lemma DeregisterStarts(cluster: Prefix, db: Db, n: Name)
    ensures Call(cluster, db, DeregisterDelete(n)) == (if n in db.peers then DeletePeer(db, n) else db, Some(DeregisterList(n)))
    ensures Call(cluster, db, DeregisterList(n)) == (db, Some(ClaimDelete(n, HeldClaims(db, n, db.claims.Keys))))
  {
    hide NodeIndexOf, IsServerPeer, HeldClaims;
  }

  /** The calls of a deregistration, and what they leave; mid is the datastore once the row is gone. */
  lemma DeregisterCalls(cluster: Prefix, db: Db, n: Name, mid: Db) returns (k: nat)
    requires mid == if n in db.peers then DeletePeer(db, n) else db
    ensures Solo(cluster, db, Some(DeregisterDelete(n)), k)
            == (Db(mid.peers, mid.claims - HeldIndices(mid, n), mid.revision + |HeldIndices(mid, n)|), None)
  {
    hide Call, Solo, HeldClaims, HeldIndices, Indices, Standing;
    var start := Some(DeregisterDelete(n));
    SoloStart(cluster, db, start);
    DeregisterStarts(cluster, db, n);
    SoloOneMore(cluster, db, start, 0);
    hide DeletePeer;
    DeregisterStarts(cluster, mid, n);
    SoloOneMore(cluster, db, start, 1);
    HeldClaimsStand(mid, n, mid.claims.Keys);
    HeldIsHeld(mid, n);
    var todo := HeldClaims(mid, n, mid.claims.Keys);
    ClaimsDeleted(cluster, db, start, 2, n, todo, mid);
    k := 2 + |todo| + 1;
  }

  lemma HeldIsHeld(db: Db, n: Name)
    ensures HeldIndices(db, n) * db.claims.Keys == HeldIndices(db, n)
  {
  }

  /** What a sweep makes of a claim. */
  datatype Sweep = LeaveIt | DropClaim | DropBoth

  function SweepOf(cluster: Prefix, db: Db, n: Name, index: nat): (w: Sweep) {
    if !HeldBy(db, index, n) then LeaveIt
    else if !(n in db.peers && NodeIndexOf(cluster, db.peers[n].cidr) == Some(index)) then DropClaim
    else if db.claims[index].server || IsServerPeer(cluster, db.peers[n]) then DropBoth
    else LeaveIt
  }

  class MeshEnroller {
    const cluster: Prefix
    var db: Db

    constructor (cluster: Prefix, db: Db)
      ensures this.cluster == cluster && this.db == db
    {
      this.cluster, this.db := cluster, db;
    }

    /** claimRange: take the claim on index i for n, or report who holds it. */
    method ClaimRange(i: nat, n: Name, server: bool) returns (holder: Name)
      modifies this`db
      ensures holder == (if i in old(db.claims) then old(db.claims)[i].holder else n)
      ensures db == if i in old(db.claims) then old(db) else CreateClaim(old(db), i, n, server)
    {
      if i !in db.claims {
        db := CreateClaim(db, i, n, server);
      }
      holder := db.claims[i].holder;
    }

    /** writePeer: create the row, or replace a row of the writer's own role in place. */
    method WritePeer(n: Name, job: Job, cidr: Cidr) returns (ok: bool)
      modifies this`db
      ensures ok == (n in old(db.peers) ==> job.Join? != IsServerPeer(cluster, old(db.peers)[n]))
      ensures ok ==> n in db.peers && db.peers[n].cidr == cidr && db.peers[n].key == job.key && db.peers[n].endpoint == job.endpoint
      ensures db == if !ok then old(db)
                    else if n in old(db.peers) then ReplacePeer(old(db), n, RowOver(job, cidr, old(db.peers)[n]))
                    else CreatePeer(old(db), n, RowOf(job, cidr))
    {
      if n !in db.peers {
        db := CreatePeer(db, n, RowOf(job, cidr));
        return true;
      }
      var cur := db.peers[n];
      if job.Join? == IsServerPeer(cluster, cur) {
        return false;
      }
      db := ReplacePeer(db, n, RowOver(job, cidr, cur));
      ok := true;
    }

    /** claimLowestFreeIndex: the least free index >= 1, with its claim held on return. */
    method ClaimLowestFreeIndex(n: Name, job: Job) returns (r: Option<nat>, ghost k: nat)
      requires Carvable(cluster) && job.Join? && n !in db.peers
      modifies this`db
      ensures r.None? ==> db == old(db) && Solo(cluster, old(db), Some(Listing(n, job)), k) == (db, None)
      ensures r.None? <==> forall i :: !Free(cluster, old(db), n, i)
      ensures r.Some? ==> Free(cluster, old(db), n, r.value) && forall i: nat :: i < r.value ==> !Free(cluster, old(db), n, i)
      ensures r.Some? ==> db == if r.value in old(db.claims) then old(db) else CreateClaim(old(db), r.value, n, false)
      ensures r.Some? ==>
        var won := Posting(n, job, None, Ipv4(NodeCidr(cluster, r.value).value), r.value !in old(db.claims));
        Solo(cluster, old(db), Some(Listing(n, job)), k) == (db, Some(won))
    {
      var used := UsedByOthers(cluster, db, n);
      ghost var start := Some(Listing(n, job));
      var index := NextUnused(used, FIRST_SERVER_INDEX + 1, Slots(cluster));
      k := 1;
      SoloOneMore(cluster, db, start, 0);
      forall i | i in used { UsedIsNotFree(cluster, db, n, i); }
      while NodeCidr(cluster, index).Some?
        invariant FIRST_SERVER_INDEX < index && (index < Slots(cluster) ==> index !in used)
        invariant db == old(db)
        invariant forall i: nat :: i < index ==> !Free(cluster, old(db), n, i)
        invariant Solo(cluster, old(db), start, k) == (old(db), TryIndex(cluster, n, job, used, index))
        decreases Slots(cluster) - index
      {
        TryCalls(cluster, db, start, k, n, job, used, index);
        FreeIffClaimable(cluster, db, n, index);
        k := k + if index in db.claims then 2 else 1;
        var holder := ClaimRange(index, n, false);
        if holder == n {
          return Some(index), k;
        }
        index := NextUnused(used, index + 1, Slots(cluster));
      }
      r := None;
    }

    /** Enroll. A join that finds no row of its name gets the least free index; a rejoin keeps its range.
        It is refused exactly over a server's row, over a range that does not parse or that another name
        has claimed, or with no index free, and a refusal writes nothing. */
    method Enroll(n: Name, job: Job) returns (r: Outcome, ghost k: nat)
      requires Carvable(cluster) && job.Join?
      modifies this`db
      ensures Solo(cluster, old(db), Some(Listing(n, job)), k) == (db, None)
      ensures r.Refused? ==> db == old(db)
      ensures r.Refused? <==>
        if n !in old(db.peers) then forall i :: !Free(cluster, old(db), n, i)
        else
          var own := old(db.peers)[n];
          IsServerPeer(cluster, own) || own.cidr.Other?
          || (NodeIndexOf(cluster, own.cidr).Some? && NodeIndexOf(cluster, own.cidr).value in old(db.claims)
              && !HeldBy(old(db), NodeIndexOf(cluster, own.cidr).value, n))
      ensures r.Enrolled? ==> n in db.peers && db.peers[n].cidr == r.cidr && EnrollIdOf(db.peers[n]) == Some(job.id)
      ensures r.Enrolled? ==> db.peers[n].key == job.key && db.peers[n].endpoint == job.endpoint
      ensures r.Enrolled? ==> r.carved == (n !in old(db.peers)) && (!r.carved ==> r.cidr == old(db.peers)[n].cidr)
      ensures r.Enrolled? && r.carved ==> exists i ::
        && Free(cluster, old(db), n, i) && (forall j: nat :: j < i ==> !Free(cluster, old(db), n, j))
        && r.cidr == Ipv4(NodeCidr(cluster, i).value)
        && HeldBy(db, i, n) && db.claims - {i} == old(db.claims) - {i}
      ensures db.peers - {n} == old(db.peers) - {n}
    {
      hide Solo, Free;
      if n !in db.peers {
        r, k := Carve(n, job);
      } else {
        r, k := Rejoin(n, job);
      }
    }

    /** Enroll of a name with no row: claim the least free index and create the row. */
    method Carve(n: Name, job: Job) returns (r: Outcome, ghost k: nat)
      requires Carvable(cluster) && job.Join? && n !in db.peers
      modifies this`db
      ensures Solo(cluster, old(db), Some(Listing(n, job)), k) == (db, None)
      ensures r.Refused? ==> db == old(db) && forall i :: !Free(cluster, old(db), n, i)
      ensures r.Enrolled? ==> r.carved && n in db.peers && db.peers[n].cidr == r.cidr && EnrollIdOf(db.peers[n]) == Some(job.id)
      ensures r.Enrolled? ==> db.peers[n].key == job.key && db.peers[n].endpoint == job.endpoint
      ensures r.Enrolled? ==> exists i ::
        && Free(cluster, old(db), n, i) && (forall j: nat :: j < i ==> !Free(cluster, old(db), n, j))
        && r.cidr == Ipv4(NodeCidr(cluster, i).value)
        && HeldBy(db, i, n) && db.claims - {i} == old(db.claims) - {i}
      ensures db.peers - {n} == old(db.peers) - {n}
    {
      hide Call, NodeIndexOf, Free;
      var index;
      index, k := ClaimLowestFreeIndex(n, job);
      if index.None? {
        return Refused, k;
      }
      PostingCreates(cluster, db, n, job, Ipv4(NodeCidr(cluster, index.value).value), index.value !in old(db.claims));
      var cidr := Ipv4(NodeCidr(cluster, index.value).value);
      SoloOneMore(cluster, old(db), Some(Listing(n, job)), k);
      var _ := WritePeer(n, job, cidr);
      return Enrolled(true, cidr), k + 1;
    }

    /** Enroll of a name with a row: re-assert its claim and replace the row, its range kept. */
    method Rejoin(n: Name, job: Job) returns (r: Outcome, ghost k: nat)
      requires Carvable(cluster) && job.Join? && n in db.peers
      modifies this`db
      ensures Solo(cluster, old(db), Some(Listing(n, job)), k) == (db, None)
      ensures r.Refused? ==> db == old(db)
      ensures r.Refused? <==>
        var own := old(db.peers)[n];
        IsServerPeer(cluster, own) || own.cidr.Other?
        || (NodeIndexOf(cluster, own.cidr).Some? && NodeIndexOf(cluster, own.cidr).value in old(db.claims)
            && !HeldBy(old(db), NodeIndexOf(cluster, own.cidr).value, n))
      ensures r.Enrolled? ==> !r.carved && n in db.peers && db.peers[n].cidr == r.cidr == old(db.peers)[n].cidr
      ensures r.Enrolled? ==> EnrollIdOf(db.peers[n]) == Some(job.id)
      ensures r.Enrolled? ==> db.peers[n].key == job.key && db.peers[n].endpoint == job.endpoint
      ensures db.peers - {n} == old(db.peers) - {n}
    {
      ghost var start := Some(Listing(n, job));
      var own := db.peers[n];
      SoloOneMore(cluster, db, start, 0);
      k := 1;
      if IsServerPeer(cluster, own) {
        return Refused, k;
      }
      var idx := NodeIndexOf(cluster, own.cidr);
      if idx.Some? {
        SoloOneMore(cluster, db, start, k);
        var holder := ClaimRange(idx.value, n, false);
        k := k + 1;
        if idx.value in old(db.claims) {
          SoloOneMore(cluster, old(db), start, k);
          k := k + 1;
        }
        if holder != n {
          return Refused, k;
        }
      } else if own.cidr.Other? {
        return Refused, k;
      }
      RowPut(cluster, old(db), start, k, n, job, own, own.cidr, db);
      k := k + 3;
      var _ := WritePeer(n, job, own.cidr);
      r := Enrolled(false, own.cidr);
    }

    /** ReleaseAllocation: the undo of an enroll. A row another enroll has since written is kept with its
        claim; otherwise the row goes, and with it the claim on the allocated range if n holds it. */
    method ReleaseAllocation(n: Name, id: string, cidr: Cidr) returns (ok: bool, ghost k: nat)
      modifies this`db
      ensures ok == (n != "" && id != "")
      ensures ok ==> Solo(cluster, old(db), Some(ReleaseRead(n, id, cidr)), k) == (db, None)
      ensures !ok || (n in old(db.peers) && EnrollIdOf(old(db.peers)[n]) != Some(id)) ==> db == old(db)
      ensures ok && (n in old(db.peers) ==> EnrollIdOf(old(db.peers)[n]) == Some(id)) ==>
        && db.peers == old(db.peers) - {n}
        && db.claims == match NodeIndexOf(cluster, cidr)
                        case None => old(db.claims)
                        case Some(i) => if HeldBy(old(db), i, n) then old(db.claims) - {i} else old(db.claims)
    {
      hide NodeIndexOf, IsServerPeer, Solo;
      k := 0;
      if n == "" || id == "" {
        return false, k;
      }
      ok := true;
      ghost var start := Some(ReleaseRead(n, id, cidr));
      SoloStart(cluster, db, start);
      SoloOneMore(cluster, db, start, 0);
      k := 1;
      var idx := NodeIndexOf(cluster, cidr);
      if n in db.peers {
        if EnrollIdOf(db.peers[n]) != Some(id) {
          return;
        }
        SoloOneMore(cluster, old(db), start, k);
        db := DeletePeer(db, n);
        SoloOneMore(cluster, old(db), start, k + 1);
        k := k + 2;
      }
      if idx.Some? {
        ClaimFreed(cluster, old(db), start, k, n, idx.value, db);
        if HeldBy(db, idx.value, n) {
          db := DeleteClaim(db, idx.value);
          k := k + 2;
        }
        k := k + 1;
      }
    }

    /** A join that carves a range and then fails: the undo restores every row, leaves the claims as they
        were (but for a claim n already held on that very range), and leaves exactly the same indices
        free, so the next join of n gets the same one. */
    method FailedJoin(n: Name, job: Job) returns (r: Outcome)
      requires Carvable(cluster) && job.Join? && n != "" && job.id != "" && n !in db.peers
      modifies this`db
      ensures db.peers == old(db.peers)
      ensures forall i: nat :: Free(cluster, db, n, i) <==> Free(cluster, old(db), n, i)
      ensures r.Enrolled? ==> exists i: nat ::
        && Free(cluster, old(db), n, i) && (forall j: nat :: j < i ==> !Free(cluster, old(db), n, j))
        && r.cidr == Ipv4(NodeCidr(cluster, i).value)
        && db.claims == old(db.claims) - {i}
    {
      hide Solo;
      ghost var k;
      r, k := Enroll(n, job);
      if r.Enrolled? {
        ghost var i: nat :| && Free(cluster, old(db), n, i) && (forall j: nat :: j < i ==> !Free(cluster, old(db), n, j))
                            && r.cidr == Ipv4(NodeCidr(cluster, i).value)
                            && HeldBy(db, i, n) && db.claims - {i} == old(db.claims) - {i};
        NodeIndexOfCarve(cluster, i);
        var _, _ := ReleaseAllocation(n, job.id, r.cidr);
        assert db.claims == old(db.claims) - {i};
      }
    }

    // ----- the other operations -----

    /** EnrollSelf, and the member route's reservation. It is refused exactly over a self range that is no
        node range or at another row, over a worker's row or a row at another range or, on the member route,
        under another key, and over another's claim; a refusal writes nothing, and a success leaves the
        server's row at its range, with its claim. */
    method EnrollSelf(n: Name, job: Job) returns (ok: bool, ghost k: nat)
      requires job.Serve?
      modifies this`db
      ensures Solo(cluster, old(db), Some(Listing(n, job)), k) == (db, None)
      ensures ok <==> MayServe(cluster, old(db), n, job)
      ensures !ok ==> db == old(db)
      ensures ok ==> n in db.peers && db.peers - {n} == old(db.peers) - {n}
      ensures ok ==> db.peers[n].cidr == job.self && db.peers[n].key == job.key && db.peers[n].endpoint == job.endpoint
      ensures ok ==> EnrollIdOf(db.peers[n]) == Some(job.id) && IsServerPeer(cluster, db.peers[n])
      ensures ok ==> var i := NodeIndexOf(cluster, job.self).value;
                HeldBy(db, i, n) && db.claims - {i} == old(db.claims) - {i} && (i !in old(db.claims) ==> db.claims[i].server)
    {
      hide NodeIndexOf, UsedByOthers;
      ghost var start := Some(Listing(n, job));
      SoloStart(cluster, db, start);
      SoloOneMore(cluster, db, start, 0);
      k := 1;
      var idx := NodeIndexOf(cluster, job.self);
      if idx.None? || !RoomFor(cluster, db, n, job) {
        return false, k;
      }
      SoloOneMore(cluster, db, start, k);
      var holder := ClaimRange(idx.value, n, true);
      k := k + 1;
      if idx.value in old(db.claims) {
        SoloOneMore(cluster, old(db), start, k);
        k := k + 1;
      }
      if holder != n {
        return false, k;
      }
      if n in db.peers {
        RowPut(cluster, old(db), start, k, n, job, db.peers[n], job.self, db);
        k := k + 3;
      } else {
        SoloOneMore(cluster, old(db), start, k);
        k := k + 1;
      }
      ok := WritePeer(n, job, job.self);
    }

    /** RefreshEndpoint: it moves the endpoint of one existing row and nothing else. */
    method RefreshEndpoint(n: Name, endpoint: string) returns (found: bool, ghost k: nat)
      modifies this`db
      ensures Solo(cluster, old(db), Some(RefreshRead(n, endpoint)), k) == (db, None)
      ensures found <==> n in old(db.peers)
      ensures !found ==> db == old(db)
      ensures found ==> n in db.peers && db.peers[n] == old(db.peers)[n].(endpoint := endpoint, version := db.peers[n].version)
      ensures found ==> db.peers - {n} == old(db.peers) - {n} && db.claims == old(db.claims)
    {
      ghost var start := Some(RefreshRead(n, endpoint));
      SoloStart(cluster, db, start);
      SoloOneMore(cluster, db, start, 0);
      k := 1;
      if n !in db.peers {
        return false, k;
      }
      var cur := db.peers[n];
      if cur.endpoint != endpoint {
        SoloOneMore(cluster, db, start, 1);
        k := 2;
        db := ReplacePeer(db, n, cur.(endpoint := endpoint));
      }
      found := true;
    }

    /** releaseClaimsHeldBy: every claim the name holds goes, and no other. */
    method ReleaseClaimsHeldBy(n: Name)
      modifies this`db
      ensures db == Db(old(db.peers), old(db.claims) - HeldIndices(old(db), n), old(db.revision) + |HeldIndices(old(db), n)|)
    {
      ghost var held := HeldIndices(db, n);
      var rest := db.claims.Keys;
      while rest != {}
        invariant rest <= old(db.claims).Keys && db.peers == old(db.peers)
        invariant db.claims == old(db.claims) - (held - rest)
        invariant db.revision == old(db.revision) + |held - rest|
      {
        var i :| i in rest;
        if HeldBy(db, i, n) {
          assert held - (rest - {i}) == (held - rest) + {i};
          MinusMore(old(db.claims), held - rest, i);
          db := DeleteClaim(db, i);
        } else {
          assert held - (rest - {i}) == held - rest;
        }
        rest := rest - {i};
      }
      assert held - {} == held;
    }

    /** Deregister: the row and every claim the name holds go, and nothing else. */
    method Deregister(n: Name) returns (ok: bool, ghost k: nat)
      modifies this`db
      ensures ok <==> n != ""
      ensures !ok ==> db == old(db)
      ensures ok ==> Solo(cluster, old(db), Some(DeregisterDelete(n)), k) == (db, None)
      ensures ok ==> db.peers == old(db.peers) - {n} && db.claims == old(db.claims) - HeldIndices(old(db), n)
    {
      hide Solo;
      if n == "" {
        return false, 0;
      }
      k := DeregisterCalls(cluster, db, n, if n in db.peers then DeletePeer(db, n) else db);
      if n in db.peers {
        db := DeletePeer(db, n);
      }
      ReleaseClaimsHeldBy(n);
      ok := true;
    }

    /** One abandoned claim swept: an orphan claim goes alone, a server's with its row, and a worker's claim
        whose row is at the range stays. */
    method SweepClaim(n: Name, index: nat) returns (ghost k: nat)
      modifies this`db
      ensures Solo(cluster, old(db), Some(SweepRead(n, index)), k) == (db, None)
      ensures match SweepOf(cluster, old(db), n, index)
              case LeaveIt => db == old(db)
              case DropClaim => db.peers == old(db.peers) && db.claims == old(db.claims) - {index}
              case DropBoth => db.peers == old(db.peers) - {n} && db.claims == old(db.claims) - {index}
    {
      hide NodeIndexOf, IsServerPeer, Solo, HeldClaims, AfterList;
      ghost var start := Some(SweepRead(n, index));
      SoloStart(cluster, db, start);
      SoloOneMore(cluster, db, start, 0);
      k := 1;
      if !HeldBy(db, index, n) {
        return;
      }
      var claim := db.claims[index];
      SoloOneMore(cluster, db, start, 1);
      k := 2;
      var atRange := n in db.peers && NodeIndexOf(cluster, db.peers[n].cidr) == Some(index);
      if atRange {
        if !claim.server && !IsServerPeer(cluster, db.peers[n]) {
          return;
        }
        SoloOneMore(cluster, db, start, 2);
        k := 3;
        db := DeletePeer(db, n);
      }
      SoloOneMore(cluster, old(db), start, k);
      db := DeleteClaim(db, index);
      SoloOneMore(cluster, old(db), start, k + 1);
      k := k + 2;
    }
  }
}
