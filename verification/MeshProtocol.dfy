/** The mesh-range protocol: MeshPeer rows and range claims in one shared datastore, and the
    operations of any number of servers as sequences of atomic API calls.

    Each API call is one atomic step on the datastore. A server runs one operation at a time (its
    mutex); operations of different servers interleave step by step. An operation may end at any
    step without a further call, which covers a crash and an API error. */
module MeshProtocol {
  import opened Wrappers
  import opened MeshAddressing

  type Name = string

  const SERVER_LABEL := "net.k3sm.io/control-plane"
  const ENROLL_ID := "net.k3sm.io/enroll-id"

  /** A MeshPeer row; the map key is both its object name and its spec.nodeName. */
  datatype Peer = Peer(
    cidr: Cidr,
    key: string,
    endpoint: string,
    labels: map<string, string>,
    annotations: map<string, string>,
    uid: nat,
    version: nat)

  /** A range claim (a Lease named for the index); server marks a server's range. */
  datatype Claim = Claim(holder: Name, server: bool, uid: nat, version: nat)

  /** The datastore. revision is its global write counter; every write stamps it. */
  datatype Db = Db(peers: map<Name, Peer>, claims: map<nat, Claim>, revision: nat)

  function EnrollIdOf(p: Peer): Option<string> {
    if ENROLL_ID in p.annotations then Some(p.annotations[ENROLL_ID]) else None
  }

  /** A control-plane row: labelled as one, or at index 0. */
  predicate IsServerPeer(cluster: Prefix, p: Peer) {
    (SERVER_LABEL in p.labels && p.labels[SERVER_LABEL] == "true")
    || NodeIndexOf(cluster, p.cidr) == Some(FIRST_SERVER_INDEX)
  }

  /** dst with every key of src that dst does not set. */
  function MergeMissing(dst: map<string, string>, src: map<string, string>): (m: map<string, string>)
    ensures forall k :: k in dst ==> k in m && m[k] == dst[k]
    ensures forall k :: k in src && k !in dst ==> k in m && m[k] == src[k]
    ensures m.Keys == dst.Keys + src.Keys
  {
    src + dst
  }

  // ----- atomic writes -----

  function CreatePeer(db: Db, n: Name, p: Peer): Db
    requires n !in db.peers
  {
    var r := db.revision + 1;
    db.(peers := db.peers[n := p.(uid := r, version := r)], revision := r)
  }

  /** A PUT whose precondition (the row still has the version the writer read) holds. */
  function ReplacePeer(db: Db, n: Name, p: Peer): Db
    requires n in db.peers
  {
    var r := db.revision + 1;
    db.(peers := db.peers[n := p.(uid := db.peers[n].uid, version := r)], revision := r)
  }

  function DeletePeer(db: Db, n: Name): Db {
    db.(peers := db.peers - {n}, revision := db.revision + 1)
  }

  function CreateClaim(db: Db, i: nat, holder: Name, server: bool): Db
    requires i !in db.claims
  {
    var r := db.revision + 1;
    db.(claims := db.claims[i := Claim(holder, server, r, r)], revision := r)
  }

  function DeleteClaim(db: Db, i: nat): Db {
    db.(claims := db.claims - {i}, revision := db.revision + 1)
  }

  predicate RowIs(db: Db, n: Name, cur: Peer) {
    n in db.peers && db.peers[n].uid == cur.uid && db.peers[n].version == cur.version
  }

  predicate ClaimIs(db: Db, i: nat, cur: Claim) {
    i in db.claims && db.claims[i].uid == cur.uid && db.claims[i].version == cur.version
  }

  predicate HeldBy(db: Db, i: nat, n: Name) {
    i in db.claims && db.claims[i].holder == n
  }

  // ----- operations in flight -----

  /** What an enrolling operation writes: a worker's join, or a server's own row at `self`. */
  datatype Job =
    | Join(key: string, endpoint: string, id: string)
    | Serve(self: Cidr, key: string, endpoint: string, memberRoute: bool, id: string)

  /** An operation on node name n, at the API call it makes next. */
  datatype Op =
    | Listing(n: Name, job: Job)
    | Claiming(n: Name, job: Job, used: set<nat>, own: Option<Peer>, cidr: Cidr, index: nat, tries: nat)
    | ReadingClaim(n: Name, job: Job, used: set<nat>, own: Option<Peer>, cidr: Cidr, index: nat, tries: nat)
    | Posting(n: Name, job: Job, own: Option<Peer>, cidr: Cidr, created: bool)
    | Fetching(n: Name, job: Job, own: Option<Peer>, cidr: Cidr, created: bool)
    | Putting(n: Name, job: Job, own: Option<Peer>, cidr: Cidr, created: bool, cur: Peer)
    | ReleaseRead(n: Name, id: string, cidr: Cidr)
    | ReleaseDelete(n: Name, id: string, cidr: Cidr, cur: Peer)
    | ReleaseVerify(n: Name, cidr: Cidr)
    | ClaimRead(n: Name, index: nat)
    | ClaimDelete(n: Name, todo: seq<(nat, Claim)>)
    | DeregisterDelete(n: Name)
    | DeregisterList(n: Name)
    | RefreshRead(n: Name, endpoint: string)
    | RefreshWrite(n: Name, endpoint: string, cur: Peer)
    | SweepRead(n: Name, index: nat)
    | SweepJudge(n: Name, index: nat, claim: Claim)
    | SweepDelete(n: Name, index: nat, claim: Claim, cur: Peer)

  /** The first call of an operation. */
  predicate Initial(op: Op) {
    op.Listing? || op.ReleaseRead? || op.DeregisterDelete? || op.RefreshRead? || op.SweepRead?
  }

  /** The row an enroll posts. */
  function RowOf(job: Job, cidr: Cidr): Peer {
    Peer(cidr, job.key, job.endpoint, if job.Serve? then map[SERVER_LABEL := "true"] else map[],
         map[ENROLL_ID := job.id], 0, 0)
  }

  /** The row an enroll puts over cur. */
  function RowOver(job: Job, cidr: Cidr, cur: Peer): Peer {
    var row := RowOf(job, cidr);
    row.(labels := MergeMissing(row.labels, cur.labels), annotations := MergeMissing(row.annotations, cur.annotations))
  }

  /** The least index >= from not in used, or the first one past the last slot. */
  function NextUnused(used: set<nat>, from: nat, slots: nat): (i: nat)
    ensures from <= i && (i < slots ==> i !in used)
    ensures forall k :: from <= k < i ==> k in used
    ensures i > from ==> i <= slots
    decreases slots - from
  {
    if from >= slots || from !in used then from else NextUnused(used, from + 1, slots)
  }

  /** The indices held by peers other than n. */
  function UsedByOthers(cluster: Prefix, db: Db, n: Name): set<nat> {
    set m | m in db.peers && m != n && NodeIndexOf(cluster, db.peers[m].cidr).Some?
      :: NodeIndexOf(cluster, db.peers[m].cidr).value
  }

  /** A worker's claim loop at index i: try it, or end when the cluster has no such range. */
  function TryIndex(cluster: Prefix, n: Name, job: Job, used: set<nat>, i: nat): Option<Op> {
    match NodeCidr(cluster, i)
    case None => None
    case Some(p) => Some(Claiming(n, job, used, None, Ipv4(p), i, 3))
  }

  /** What follows the listing of the peers. */
  function AfterList(cluster: Prefix, db: Db, n: Name, job: Job): Option<Op> {
    var own := if n in db.peers then Some(db.peers[n]) else None;
    var used := UsedByOthers(cluster, db, n);
    match job
    case Join(_, _, _) =>
      if own.None? then TryIndex(cluster, n, job, used, NextUnused(used, FIRST_SERVER_INDEX + 1, Slots(cluster)))
      else if IsServerPeer(cluster, own.value) then None
      else (
        match NodeIndexOf(cluster, own.value.cidr)
        case None => if own.value.cidr.Other? then None else Some(Posting(n, job, own, own.value.cidr, false))
        case Some(i) => Some(Claiming(n, job, used, own, own.value.cidr, i, 3))
      )
    case Serve(self, key, _, memberRoute, _) =>
      var idx := NodeIndexOf(cluster, self);
      if idx.None? then None
      else if exists m :: m in db.peers && m != n && SameRange(db.peers[m].cidr, self) then None
      else if own.Some? && (!IsServerPeer(cluster, own.value) || !SameRange(own.value.cidr, self)
                            || (memberRoute && own.value.key != key)) then None
      else Some(Claiming(n, job, used, own, self, idx.value, 3))
  }

  /** What follows finding index i's claim held by `holder`. */
  function AfterHolder(cluster: Prefix, op: Op, holder: Name, created: bool): Option<Op>
    requires op.Claiming? || op.ReadingClaim?
  {
    if holder == op.n then Some(Posting(op.n, op.job, op.own, op.cidr, created))
    else if op.job.Join? && op.own.None? then
      TryIndex(cluster, op.n, op.job, op.used, NextUnused(op.used, op.index + 1, Slots(cluster)))
    else None
  }

  /** What follows a row that was not written: a server gives back a claim it made. */
  function AfterFailedWrite(cluster: Prefix, op: Op): Option<Op>
    requires op.Posting? || op.Fetching? || op.Putting?
  {
    var idx := NodeIndexOf(cluster, op.cidr);
    if op.job.Serve? && op.created && idx.Some? then Some(ClaimRead(op.n, idx.value)) else None
  }

  /** The claims among todo that n holds, as listed; their order is whatever the list's is. */
  ghost function HeldClaims(db: Db, n: Name, todo: set<nat>): (r: seq<(nat, Claim)>)
    ensures forall k :: 0 <= k < |r| ==> r[k].0 in db.claims && db.claims[r[k].0] == r[k].1 && r[k].1.holder == n
    ensures forall i :: i in todo && HeldBy(db, i, n) ==> (i, db.claims[i]) in r
  {
    if todo == {} then []
    else
      var i :| i in todo;
      var rest := HeldClaims(db, n, todo - {i});
      if HeldBy(db, i, n) then [(i, db.claims[i])] + rest else rest
  }

  /** One API call of op: the datastore after it, and the operation's next call if any. */
  ghost function Call(cluster: Prefix, db: Db, op: Op): (Db, Option<Op>) {
    match op
    case Listing(n, job) => (db, AfterList(cluster, db, n, job))
    case Claiming(n, job, used, own, cidr, index, tries) =>
      if index in db.claims then (db, Some(ReadingClaim(n, job, used, own, cidr, index, tries)))
      else (CreateClaim(db, index, n, job.Serve?), AfterHolder(cluster, op, n, true))
    case ReadingClaim(n, job, used, own, cidr, index, tries) =>
      if index in db.claims then (db, AfterHolder(cluster, op, db.claims[index].holder, false))
      else if tries <= 1 then (db, None)
      else (db, Some(Claiming(n, job, used, own, cidr, index, tries - 1)))
    case Posting(n, job, own, cidr, created) =>
      if n in db.peers then (db, Some(Fetching(n, job, own, cidr, created)))
      else (CreatePeer(db, n, RowOf(job, cidr)), None)
    case Fetching(n, job, own, cidr, created) =>
      if n !in db.peers then (db, AfterFailedWrite(cluster, op))
      else if job.Join? == IsServerPeer(cluster, db.peers[n]) then (db, AfterFailedWrite(cluster, op))
      else (db, Some(Putting(n, job, own, cidr, created, db.peers[n])))
    case Putting(n, job, own, cidr, created, cur) =>
      if n in db.peers && db.peers[n].version == cur.version
      then (ReplacePeer(db, n, RowOver(job, cidr, cur)), None)
      else (db, AfterFailedWrite(cluster, op))
    case ReleaseRead(n, id, cidr) =>
      if n !in db.peers then
        var idx := NodeIndexOf(cluster, cidr);
        (db, if idx.Some? then Some(ClaimRead(n, idx.value)) else None)
      else if EnrollIdOf(db.peers[n]) != Some(id) then (db, None)
      else (db, Some(ReleaseDelete(n, id, cidr, db.peers[n])))
    case ReleaseDelete(n, id, cidr, cur) =>
      if RowIs(db, n, cur) then (DeletePeer(db, n), Some(ReleaseVerify(n, cidr))) else (db, None)
    case ReleaseVerify(n, cidr) =>
      var idx := NodeIndexOf(cluster, cidr);
      (db, if n !in db.peers && idx.Some? then Some(ClaimRead(n, idx.value)) else None)
    case ClaimRead(n, index) =>
      (db, if HeldBy(db, index, n) then Some(ClaimDelete(n, [(index, db.claims[index])])) else None)
    case ClaimDelete(n, todo) =>
      if todo == [] then (db, None)
      else
        var (i, c) := todo[0];
        (if ClaimIs(db, i, c) then DeleteClaim(db, i) else db, Some(ClaimDelete(n, todo[1..])))
    case DeregisterDelete(n) =>
      (if n in db.peers then DeletePeer(db, n) else db, Some(DeregisterList(n)))
    case DeregisterList(n) => (db, Some(ClaimDelete(n, HeldClaims(db, n, db.claims.Keys))))
    case RefreshRead(n, endpoint) =>
      if n !in db.peers || db.peers[n].endpoint == endpoint then (db, None)
      else (db, Some(RefreshWrite(n, endpoint, db.peers[n])))
    case RefreshWrite(n, endpoint, cur) =>
      if n in db.peers && db.peers[n].version == cur.version
      then (ReplacePeer(db, n, cur.(endpoint := endpoint)), None)
      else (db, None)
    case SweepRead(n, index) =>
      (db, if HeldBy(db, index, n) then Some(SweepJudge(n, index, db.claims[index])) else None)
    case SweepJudge(n, index, claim) =>
      if !(n in db.peers && NodeIndexOf(cluster, db.peers[n].cidr) == Some(index))
      then (db, Some(ClaimDelete(n, [(index, claim)])))
      else if claim.server || IsServerPeer(cluster, db.peers[n])
      then (db, Some(SweepDelete(n, index, claim, db.peers[n])))
      else (db, None)
    case SweepDelete(n, index, claim, cur) =>
      (if RowIs(db, n, cur) then DeletePeer(db, n) else db, Some(ClaimDelete(n, [(index, claim)])))
  }

  // ----- runs -----

  /** ops holds each server's operation in flight; minted the enroll ids handed out. */
  datatype State = State(db: Db, ops: map<nat, Op>, minted: set<string>)

  datatype Action =
    | Start(proc: nat, op: Op)
    | Advance(proc: nat)
    | Stop(proc: nat)
    | WriteError(proc: nat)
    | Backfill(index: nat, holder: Name, server: bool)

  /** A new enroll mints an id no enroll had; every other operation mints none. */
  predicate FreshId(s: State, op: Op) {
    op.Listing? ==> op.job.id !in s.minted
  }

  predicate Enabled(s: State, a: Action) {
    match a
    case Start(p, op) => p !in s.ops && Initial(op) && FreshId(s, op)
    case Advance(p) => p in s.ops
    case Stop(p) => p in s.ops
    case WriteError(p) => p in s.ops && (s.ops[p].Posting? || s.ops[p].Fetching? || s.ops[p].Putting?)
    case Backfill(i, _, _) => i !in s.db.claims
  }

  function WithOp(ops: map<nat, Op>, p: nat, op: Option<Op>): map<nat, Op> {
    match op
    case None => ops - {p}
    case Some(o) => ops[p := o]
  }

  ghost function Do(cluster: Prefix, s: State, a: Action): State
    requires Enabled(s, a)
  {
    match a
    case Start(p, op) =>
      s.(ops := s.ops[p := op], minted := if op.Listing? then s.minted + {op.job.id} else s.minted)
    case Advance(p) =>
      var (db, op) := Call(cluster, s.db, s.ops[p]);
      s.(db := db, ops := WithOp(s.ops, p, op))
    case Stop(p) => s.(ops := s.ops - {p})
    case WriteError(p) => s.(ops := WithOp(s.ops, p, AfterFailedWrite(cluster, s.ops[p])))
    case Backfill(i, holder, server) => s.(db := CreateClaim(s.db, i, holder, server))
  }

  /** Each node name is handled by one server at a time. */
  predicate OneServerPerName(s: State, a: Action) {
    a.Start? ==> forall p :: p in s.ops ==> s.ops[p].n != a.op.n
  }

  ghost predicate Possible(cluster: Prefix, s: State, acts: seq<Action>)
    decreases |acts|
  {
    acts == [] || (Enabled(s, acts[0]) && Possible(cluster, Do(cluster, s, acts[0]), acts[1..]))
  }

  ghost predicate Disciplined(cluster: Prefix, s: State, acts: seq<Action>)
    requires Possible(cluster, s, acts)
    decreases |acts|
  {
    acts == [] || (OneServerPerName(s, acts[0]) && Disciplined(cluster, Do(cluster, s, acts[0]), acts[1..]))
  }

  ghost function Run(cluster: Prefix, s: State, acts: seq<Action>): State
    requires Possible(cluster, s, acts)
    decreases |acts|
  {
    if acts == [] then s else Run(cluster, Do(cluster, s, acts[0]), acts[1..])
  }
}
