/** How a resuming worker programs its mesh peers: the seed's server peer alone, then the live list or, when
    the poll for it gives up, the whole seed; over any number of restarts. Times are in nanoseconds. */
module PeerResume {
  import opened Wrappers
  import opened MeshAddressing
  import opened MeshProtocol
  import opened MeshFences
  import opened MeshSafety

  const SECOND := 1_000_000_000
  const FIRST_SYNC_TIMEOUT := 30 * SECOND
  const POLL_INTERVAL := SECOND
  const ATTEMPT_TIMEOUT := 5 * SECOND

  datatype PeerSpec = PeerSpec(node: string, key: string, podCidr: Cidr, allowed: seq<Cidr>)

  type Peers = seq<PeerSpec>

  // ----- the server peer -----

  /** The ranges a peer carries traffic for. */
  function Ranges(p: PeerSpec): (r: seq<Cidr>) {
    if p.allowed == [] && p.podCidr != Other("") then [p.podCidr] else p.allowed
  }

  predicate Carries(c: Cidr, addr: nat) {
    c.Ipv4? && Contains(c.prefix, addr)
  }

  predicate Covers(p: PeerSpec, addr: nat) {
    exists c :: c in Ranges(p) && Carries(c, addr)
  }

  /** serverPeerFromSeed: the first peer that covers the apiserver's address; a host that is no IP literal
      is None and matches nothing. */
  method ServerPeerFromSeed(peers: Peers, host: Option<nat>) returns (r: Option<PeerSpec>)
    ensures host.None? ==> r.None?
    ensures host.Some? && r.None? ==> forall i :: 0 <= i < |peers| ==> !Covers(peers[i], host.value)
    ensures host.Some? && r.Some? ==> exists i :: 0 <= i < |peers| && peers[i] == r.value && FirstToCover(peers, i, host.value)
  {
    if host.None? {
      return None;
    }
    for i := 0 to |peers|
      invariant forall k :: 0 <= k < i ==> !Covers(peers[k], host.value)
    {
      var ranges := Ranges(peers[i]);
      for j := 0 to |ranges|
        invariant forall k :: 0 <= k < j ==> !Carries(ranges[k], host.value)
      {
        if Carries(ranges[j], host.value) {
          return Some(peers[i]);
        }
      }
    }
    r := None;
  }

  predicate FirstToCover(peers: Peers, i: nat, addr: nat)
    requires i < |peers|
  {
    Covers(peers[i], addr) && forall k :: 0 <= k < i ==> !Covers(peers[k], addr)
  }

  /** Two node ranges that hold one address are one range. */
  lemma SharedAddressSharedRange(a: Prefix, b: Prefix, addr: nat)
    requires a.bits == NODE_BITS && b.bits == NODE_BITS && Contains(a, addr) && Contains(b, addr)
    ensures SameRange(Ipv4(a), Ipv4(b))
  {
  }

  /** A peer list read off the datastore: one entry per row, carrying the row's range. */
  ghost predicate Snapshot(db: Db, peers: Peers) {
    && (forall i :: 0 <= i < |peers| ==> peers[i].node in db.peers && peers[i].podCidr == db.peers[peers[i].node].cidr)
    && (forall i :: 0 <= i < |peers| ==> peers[i].allowed == [] || peers[i].allowed == [peers[i].podCidr])
    && (forall i, j :: 0 <= i < j < |peers| ==> peers[i].node != peers[j].node)
  }

  /** A peer read off the datastore carries exactly the addresses of its row's range. */
  lemma RowCoversItsRange(db: Db, peers: Peers, i: nat, addr: nat)
    requires Snapshot(db, peers) && i < |peers|
    ensures Covers(peers[i], addr) <==> Carries(db.peers[peers[i].node].cidr, addr)
  {
    var p := peers[i];
    if Carries(p.podCidr, addr) {
      assert Ranges(p) == [p.podCidr] && p.podCidr in Ranges(p);
    }
  }

  /** A node range, or none. */
  predicate NodeRange(c: Cidr) {
    c.Ipv4? ==> c.prefix.bits == NODE_BITS
  }

  ghost predicate NodeRanges(db: Db) {
    forall n :: n in db.peers ==> NodeRange(db.peers[n].cidr)
  }

  /** The range an operation is about to write. */
  predicate WritesNodeRange(op: Op) {
    op.Claiming? || op.ReadingClaim? || op.Posting? || op.Fetching? || op.Putting? ==> NodeRange(op.cidr)
  }

  ghost predicate OnlyNodeRanges(s: State) {
    NodeRanges(s.db) && forall p :: p in s.ops ==> WritesNodeRange(s.ops[p])
  }

  lemma CallNodeRanges(cluster: Prefix, db: Db, op: Op)
    requires NodeRanges(db) && WritesNodeRange(op)
    requires op.RefreshWrite? && op.n in db.peers && db.peers[op.n].version == op.cur.version ==> op.cur == db.peers[op.n]
    ensures NodeRanges(Call(cluster, db, op).0)
    ensures Call(cluster, db, op).1.Some? ==> WritesNodeRange(Call(cluster, db, op).1.value)
  {
    hide IsServerPeer, HeldClaims, NextUnused, UsedByOthers;
  }

  /** The allocation writes node ranges only, so rows that start on node ranges stay on them. */
  lemma {:induction false} RunNodeRanges(cluster: Prefix, s: State, acts: seq<Action>)
    requires Consistent(cluster, s) && OnlyNodeRanges(s) && Possible(cluster, s, acts)
    ensures OnlyNodeRanges(Run(cluster, s, acts))
    decreases |acts|
  {
    if acts != [] {
      StepConsistent(cluster, s, acts[0]);
      if acts[0].Advance? {
        assert Sound(cluster, s.db, s.ops[acts[0].proc]);
        CallNodeRanges(cluster, s.db, s.ops[acts[0].proc]);
      }
      RunNodeRanges(cluster, Do(cluster, s, acts[0]), acts[1..]);
      hide Call, Sound, Consistent;
    }
  }

  /** In a list read at any point of any run of the allocation protocol that keeps one server per name, from
      rows on node ranges, at most one peer covers an address, so the server peer is the only one that could
      be chosen. */
  lemma ServerPeerIsUnique(cluster: Prefix, s: State, acts: seq<Action>, peers: Peers, i: nat, j: nat, addr: nat)
    requires Carvable(cluster) && Quiet(s) && NodeRanges(s.db) && Possible(cluster, s, acts) && Disciplined(cluster, s, acts)
    requires Snapshot(Run(cluster, s, acts).db, peers)
    requires i < |peers| && j < |peers| && Covers(peers[i], addr) && Covers(peers[j], addr)
    ensures i == j
  {
    RangesStayDistinct(cluster, s, acts);
    RunNodeRanges(cluster, s, acts);
    var db := Run(cluster, s, acts).db;
    hide Run, Possible, Disciplined, Quiet, SameRange;
    var a, b := db.peers[peers[i].node].cidr, db.peers[peers[j].node].cidr;
    assert Carries(a, addr) && Carries(b, addr);
    SharedAddressSharedRange(a.prefix, b.prefix, addr);
  }

  /** Where a wider row has been written by hand it can fail: a /16 and a /24 inside it. */
  lemma WiderRowSharesAddresses(wide: Prefix, narrow: Prefix)
    requires wide == PrefixRaw.Prefix(0, 16) && narrow == PrefixRaw.Prefix(256, 24)
    ensures !SameRange(Ipv4(wide), Ipv4(narrow)) && Carries(Ipv4(wide), 256) && Carries(Ipv4(narrow), 256)
  {
    SpanOf16();
    HostSpanOfNode(narrow);
  }

  lemma SpanOf16()
    ensures Pow2(16) == 65536
  {
    assert Pow2(8) == 256;
    Pow2Split(8, 8);
  }

  // ----- the poll -----

  /** What the world does to a poll: each attempt's answer and duration, each timer's lateness, and when, if
      ever, the caller is cancelled. */
  datatype World = World(wired: bool, answer: nat -> Option<Peers>, took: nat -> nat, late: nat -> nat, cancelAt: Option<int>)

  predicate Cancelled(w: World, now: int) {
    w.cancelAt.Some? && w.cancelAt.value <= now
  }

  function Min(a: int, b: int): int {
    if a < b then a else b
  }

  /** A poll's last attempt, the list it brought if any, and when it ended. */
  datatype Poll = Poll(last: nat, live: Option<Peers>, at: int)

  /** The poll from its n-th attempt, begun at now. */
  function PollFrom(w: World, n: nat, now: int, deadline: int): (p: Poll)
    decreases if now < deadline then deadline - now else 0
  {
    var over := now + w.took(n);
    if w.answer(n).Some? then Poll(n, w.answer(n), over)
    else if Cancelled(w, over) || deadline - over <= 0 then Poll(n, None, over)
    else
      var woken := over + Min(deadline - over, POLL_INTERVAL) + w.late(n);
      if Cancelled(w, woken) then Poll(n, None, w.cancelAt.value)
      else PollFrom(w, n + 1, woken, deadline)
  }

  /** pollMeshPeers' loop. */
  method PollMeshPeers(w: World, n: nat, now: int, bound: nat) returns (live: Option<Peers>, at: int, next: nat)
    ensures !w.wired ==> live == None && at == now && next == n
    ensures w.wired ==> next > n && Poll(next - 1, live, at) == PollFrom(w, n, now, now + bound)
  {
    if !w.wired {
      return None, now, n;
    }
    var deadline := now + bound;
    at, next := now, n;
    while true
      invariant PollFrom(w, next, at, deadline) == PollFrom(w, n, now, deadline) && next >= n
      decreases if at < deadline then deadline - at else 0
    {
      live, at, next := w.answer(next), at + w.took(next), next + 1;
      if live.Some? || Cancelled(w, at) {
        return;
      }
      var remaining := deadline - at;
      if remaining <= 0 {
        return;
      }
      var woken := at + Min(remaining, POLL_INTERVAL) + w.late(next - 1);
      if Cancelled(w, woken) {
        at := w.cancelAt.value;
        return;
      }
      at := woken;
    }
  }

  /** The poll brings the first list any attempt brings, and gives up only when cancelled or past the bound. */
  lemma {:induction false} PollBringsFirstList(w: World, n: nat, now: int, deadline: int)
    ensures var p := PollFrom(w, n, now, deadline);
      && p.last >= n && p.live == w.answer(p.last)
      && (forall k: nat :: n <= k < p.last ==> w.answer(k).None?)
      && (p.live.None? ==> Cancelled(w, p.at) || p.at >= deadline)
      && p.at >= now
    decreases if now < deadline then deadline - now else 0
  {
    var over := now + w.took(n);
    if w.answer(n).None? && !Cancelled(w, over) && deadline - over > 0 {
      var woken := over + Min(deadline - over, POLL_INTERVAL) + w.late(n);
      if !Cancelled(w, woken) {
        PollBringsFirstList(w, n + 1, woken, deadline);
      }
    }
  }

  /** Attempts that fail at once and punctual timers make it one attempt a second until the bound. */
  lemma {:induction false} PunctualPollTriesEverySecond(w: World, n: nat, now: int, seconds: nat)
    requires forall k: nat :: k >= n ==> w.answer(k).None? && w.took(k) == 0 && w.late(k) == 0
    requires w.cancelAt.None?
    ensures PollFrom(w, n, now, now + seconds * SECOND) == Poll(n + seconds, None, now + seconds * SECOND)
    decreases seconds
  {
    if seconds > 0 {
      PunctualPollTriesEverySecond(w, n + 1, now + SECOND, seconds - 1);
    }
  }

  /** The deadline of an attempt begun at now: its own timeout, or the poll's when that is sooner. */
  function Allowed(now: int, deadline: int): (d: int)
    ensures 0 <= d
  {
    var d := Min(ATTEMPT_TIMEOUT, deadline - now);
    if d < 0 then 0 else d
  }

  /** Every attempt of the poll ends within slack of its deadline, and every timer fires within slack. */
  ghost predicate Respected(w: World, n: nat, now: int, deadline: int, slack: nat)
    decreases if now < deadline then deadline - now else 0
  {
    var over := now + w.took(n);
    && w.took(n) <= Allowed(now, deadline) + slack
    && (w.answer(n).None? && !Cancelled(w, over) && deadline - over > 0 ==>
          && w.late(n) <= slack
          && Respected(w, n + 1, over + Min(deadline - over, POLL_INTERVAL) + w.late(n), deadline, slack))
  }

  /** Then the poll ends within the bound, up to one late timer and one late attempt. */
  lemma {:induction false} PollEndsInBound(w: World, n: nat, now: int, deadline: int, slack: nat)
    requires Respected(w, n, now, deadline, slack) && now <= deadline + slack
    ensures PollFrom(w, n, now, deadline).at <= deadline + 2 * slack
    decreases if now < deadline then deadline - now else 0
  {
    var over := now + w.took(n);
    if w.answer(n).None? && !Cancelled(w, over) && deadline - over > 0 {
      var woken := over + Min(deadline - over, POLL_INTERVAL) + w.late(n);
      if !Cancelled(w, woken) {
        PollEndsInBound(w, n + 1, woken, deadline, slack);
      }
    }
  }

  // ----- restarts -----

  /** One resumed start, as the stored seed sees it: the live list it obtained, and whether it stored it. */
  datatype Boot = Boot(live: Option<Peers>, stored: bool)

  /** The seed after a history of starts. */
  function SeedAfter(seed: Peers, starts: seq<Boot>): (r: Peers) {
    if starts == [] then seed else
      var n := |starts| - 1;
      if starts[n].live.Some? && starts[n].stored then starts[n].live.value else SeedAfter(seed, starts[..n])
  }

  lemma SeedAfterOneMore(seed: Peers, starts: seq<Boot>, b: Boot)
    ensures SeedAfter(seed, starts + [b]) == if b.live.Some? && b.stored then b.live.value else SeedAfter(seed, starts)
  {
    assert (starts + [b])[..|starts|] == starts;
  }

  /** It is the live list of the latest start that stored one, and the first seed when none has. */
  lemma {:induction false} SeedIsLatestStored(seed: Peers, starts: seq<Boot>, i: nat)
    requires i <= |starts|
    requires forall k :: i <= k < |starts| ==> !(starts[k].live.Some? && starts[k].stored)
    requires i > 0 ==> starts[i - 1].live.Some? && starts[i - 1].stored
    ensures SeedAfter(seed, starts) == if i == 0 then seed else starts[i - 1].live.value
  {
    if i < |starts| {
      SeedIsLatestStored(seed, starts[..|starts| - 1], i);
    }
  }

  /** A request to the mesh device: when, and the whole peer set asked for. */
  datatype Program = Program(at: int, peers: Peers)

  /** Only the first peer of the seed to cover the apiserver, or nothing when none does. */
  ghost predicate ServerOnly(seed: Peers, host: Option<nat>, at: int, early: seq<Program>) {
    || (early == [] && (host.Some? ==> forall i :: 0 <= i < |seed| ==> !Covers(seed[i], host.value)))
    || (host.Some? && exists i :: 0 <= i < |seed| && FirstToCover(seed, i, host.value) && early == [Program(at, [seed[i]])])
  }

  class ResumingWorker {
    const world: World
    var now: int
    var attempts: nat
    var seed: Peers
    var programs: seq<Program>
    ghost const firstSeed: Peers
    ghost var starts: seq<Boot>

    constructor (world: World, now: int, seed: Peers)
      ensures Valid() && this.world == world && this.seed == seed == firstSeed && this.now == now
      ensures starts == [] && programs == []
    {
      this.world, this.now, this.seed, firstSeed := world, now, seed, seed;
      attempts, starts, programs := 0, [], [];
    }

    ghost predicate Valid()
      reads this
    {
      seed == SeedAfter(firstSeed, starts)
    }

    /** The requests made before the live list is known: the seed's server peer alone, or none when no
        peer of the seed covers the apiserver. */
    method ProgramServer(host: Option<nat>) returns (early: seq<Program>)
      modifies this`programs
      ensures programs == old(programs) + early && ServerOnly(seed, host, now, early)
    {
      var server := ServerPeerFromSeed(seed, host);
      early := if server.Some? then [Program(now, [server.value])] else [];
      programs := programs + early;
    }

    /** programResumedPeers: the server peer first; then, when the poll is over, the live list or the whole
        seed; and the live list stored for the next start when there is a hook to store it and the write
        succeeds. */
    method Resume(host: Option<nat>, firstSync: int, hook: bool, written: bool) returns (live: Option<Peers>, early: seq<Program>)
      requires Valid()
      modifies this
      ensures Valid() && starts == old(starts) + [Boot(live, hook && written)]
      ensures ServerOnly(SeedAfter(firstSeed, old(starts)), host, old(now), early)
      ensures programs == old(programs) + early + [Program(now, if live.Some? then live.value else SeedAfter(firstSeed, old(starts)))]
      ensures var bound := if firstSync <= 0 then 30 * SECOND else firstSync;
        if world.wired then attempts > 0 && Poll(attempts - 1, live, now) == PollFrom(world, old(attempts), old(now), old(now) + bound)
        else live.None? && now == old(now)
    {
      hide PollFrom, ServerOnly, SeedAfter;
      early := ProgramServer(host);
      var bound := if firstSync <= 0 then FIRST_SYNC_TIMEOUT else firstSync;
      live, now, attempts := PollMeshPeers(world, attempts, now, bound);
      SeedAfterOneMore(firstSeed, starts, Boot(live, hook && written));
      starts := starts + [Boot(live, hook && written)];
      if live.None? {
        programs := programs + [Program(now, seed)];
      } else {
        programs := programs + [Program(now, live.value)];
        if hook && written {
          seed := live.value;
        }
      }
    }
  }
}
