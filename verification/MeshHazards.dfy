/** Why range uniqueness needs one server per node name: two runs that break it, each with two servers
    on one name at once. */
module MeshHazards {
  import opened Wrappers
  import opened MeshAddressing
  import opened MeshProtocol
  import opened MeshSafety

  /** A run grows by one enabled action. */
  lemma {:induction false} RunExtends(cluster: Prefix, s: State, acts: seq<Action>, a: Action)
    requires Possible(cluster, s, acts) && Enabled(Run(cluster, s, acts), a)
    ensures Possible(cluster, s, acts + [a])
    ensures Run(cluster, s, acts + [a]) == Do(cluster, Run(cluster, s, acts), a)
    decreases |acts|
  {
    if acts == [] {
      assert acts + [a] == [a];
    } else {
      assert (acts + [a])[0] == acts[0] && (acts + [a])[1..] == acts[1..] + [a];
      RunExtends(cluster, Do(cluster, s, acts[0]), acts[1..], a);
    }
  }

  /** The state s is reached from s0 by some run. */
  ghost predicate Reached(cluster: Prefix, s0: State, s: State) {
    exists acts :: Possible(cluster, s0, acts) && Run(cluster, s0, acts) == s
  }

  lemma ReachedByNone(cluster: Prefix, s0: State)
    ensures Reached(cluster, s0, s0)
  {
    assert Possible(cluster, s0, []) && Run(cluster, s0, []) == s0;
  }

  lemma Reaches(cluster: Prefix, s0: State, s: State, a: Action)
    requires Reached(cluster, s0, s) && Enabled(s, a)
    ensures Reached(cluster, s0, Do(cluster, s, a))
  {
    var acts :| Possible(cluster, s0, acts) && Run(cluster, s0, acts) == s;
    RunExtends(cluster, s0, acts, a);
  }

  function JoinOf(id: string): Job {
    Join("key", "192.0.2.1:51820", id)
  }

  /** The first worker's listing of a datastore with no rows picks index 1. */
  lemma FirstListing(cluster: Prefix, db: Db, n: Name, id: string)
    requires 1 < Slots(cluster) && db.peers == map[]
    ensures Call(cluster, db, Listing(n, JoinOf(id))) ==
            (db, Some(Claiming(n, JoinOf(id), {}, None, Ipv4(NodeCidr(cluster, 1).value), 1, 3)))
  {
    assert UsedByOthers(cluster, db, n) == {};
  }

  lemma OneHeldClaim(db: Db, n: Name, c: Claim)
    requires db.claims == map[1 := c] && c.holder == n
    ensures HeldClaims(db, n, db.claims.Keys) == [(1, c)]
  {
    assert db.claims.Keys == {1};
    assert HeldClaims(db, n, {}) == [];
    assert {1} - {1} == {};
    assert HeldClaims(db, n, {1}) == [(1, db.claims[1])] + HeldClaims(db, n, {});
  }

  /** One more action of a run. */
  lemma Go(cluster: Prefix, s0: State, s: State, a: Action) returns (s': State)
    requires Reached(cluster, s0, s) && Enabled(s, a)
    ensures s' == Do(cluster, s, a) && Reached(cluster, s0, s')
  {
    Reaches(cluster, s0, s, a);
    s' := Do(cluster, s, a);
  }

  function Range1(cluster: Prefix): Cidr
    requires 1 < Slots(cluster)
  {
    Ipv4(NodeCidr(cluster, 1).value)
  }

  /** A join that has won index 1 and is about to write its row. */
  function Won(cluster: Prefix, n: Name, id: string, created: bool): Op
    requires 1 < Slots(cluster)
  {
    Posting(n, JoinOf(id), None, Range1(cluster), created)
  }

  /** With no rows and no claims, a join goes from its start to holding the claim on index 1. */
  lemma JoinWinsFirst(cluster: Prefix, s0: State, s: State, p: nat, n: Name, id: string) returns (s': State)
    requires 1 < Slots(cluster) && Reached(cluster, s0, s) && p !in s.ops && id !in s.minted
    requires s.db.peers == map[] && s.db.claims == map[]
    ensures Reached(cluster, s0, s')
    ensures s'.db == Db(map[], map[1 := Claim(n, false, s.db.revision + 1, s.db.revision + 1)], s.db.revision + 1)
    ensures s'.ops == s.ops[p := Won(cluster, n, id, true)] && s'.minted == s.minted + {id}
  {
    hide NodeIndexOf, Reached, NextUnused, UsedByOthers;
    FirstListing(cluster, s.db, n, id);
    s' := Go(cluster, s0, s, Start(p, Listing(n, JoinOf(id))));
    s' := Go(cluster, s0, s', Advance(p));
    s' := Go(cluster, s0, s', Advance(p));
  }

  /** A deregistration of n from its start to the release of n's one claim. */
  lemma DeregisterFrees(cluster: Prefix, s0: State, s: State, p: nat, n: Name, c: Claim) returns (s': State)
    requires Reached(cluster, s0, s) && p !in s.ops
    requires s.db.peers == map[] && s.db.claims == map[1 := c] && c.holder == n
    ensures Reached(cluster, s0, s')
    ensures s'.db == Db(map[], map[], s.db.revision + 1) && s'.ops == s.ops && s'.minted == s.minted
  {
    hide NodeIndexOf, AfterList, HeldClaims, Reached;
    OneHeldClaim(s.db, n, c);
    s' := Go(cluster, s0, s, Start(p, DeregisterDelete(n)));
    s' := Go(cluster, s0, s', Advance(p));
    s' := Go(cluster, s0, s', Advance(p));
    assert s'.ops[p] == ClaimDelete(n, [(1, c)]);
    s' := Go(cluster, s0, s', Advance(p));
    s' := Go(cluster, s0, s', Stop(p));
    assert s'.ops == s.ops;
  }

  const EMPTY := State(Db(map[], map[], 0), map[], {})

  /** A deregistration on one server, run between another server's claim and its row for the same name,
      frees the claim; a third server's join takes the range, and both rows are written. */
  lemma DeregisterUnderAJoinDuplicates(cluster: Prefix)
    requires 1 < Slots(cluster)
    ensures exists s :: Reached(cluster, EMPTY, s) && !DistinctRanges(s.db)
  {
    ReachedByNone(cluster, EMPTY);
    var s := JoinWinsFirst(cluster, EMPTY, EMPTY, 0, "n", "1");
    s := DeregisterFrees(cluster, EMPTY, s, 1, "n", Claim("n", false, 1, 1));
    s := JoinWinsFirst(cluster, EMPTY, s, 2, "m", "2");
    s := Go(cluster, EMPTY, s, Advance(2));
    s := Go(cluster, EMPTY, s, Advance(0));
    assert s.db.peers["m"].cidr == Range1(cluster) && s.db.peers["n"].cidr == Range1(cluster);
  }

  const ORPHAN := Claim("n", false, 1, 1)
  const ORPHANED := State(Db(map[], map[1 := ORPHAN], 1), map[], {})

  /** A join lists the empty rows and is about to try the claim on index 1. */
  lemma JoinLists(cluster: Prefix) returns (s: State)
    requires 1 < Slots(cluster)
    ensures Reached(cluster, ORPHANED, s)
    ensures s == State(ORPHANED.db, map[2 := Claiming("m", JoinOf("2"), {}, None, Range1(cluster), 1, 3)], {"2"})
  {
    ReachedByNone(cluster, ORPHANED);
    FirstListing(cluster, ORPHANED.db, "m", "2");
    s := Go(cluster, ORPHANED, ORPHANED, Start(2, Listing("m", JoinOf("2"))));
    s := Go(cluster, ORPHANED, s, Advance(2));
  }

  /** A sweep judges n's claim an orphan and is about to delete it. */
  lemma SweepJudges(cluster: Prefix, s: State) returns (s': State)
    requires Reached(cluster, ORPHANED, s) && s.db == ORPHANED.db && 1 !in s.ops
    ensures Reached(cluster, ORPHANED, s')
    ensures s' == s.(ops := s.ops[1 := ClaimDelete("n", [(1, ORPHAN)])])
  {
    s' := Go(cluster, ORPHANED, s, Start(1, SweepRead("n", 1)));
    s' := Go(cluster, ORPHANED, s', Advance(1));
    assert s'.ops[1] == SweepJudge("n", 1, ORPHAN);
    s' := Go(cluster, ORPHANED, s', Advance(1));
  }

  /** The claim's holder rejoins: it finds its claim held by itself and writes its row. */
  lemma HolderRejoins(cluster: Prefix, s: State) returns (s': State)
    requires 1 < Slots(cluster) && Reached(cluster, ORPHANED, s)
    requires s.db == ORPHANED.db && 0 !in s.ops && "1" !in s.minted
    ensures Reached(cluster, ORPHANED, s')
    ensures s'.ops == s.ops && s'.db.claims == s.db.claims
    ensures s'.db.peers.Keys == {"n"} && s'.db.peers["n"].cidr == Range1(cluster)
  {
    hide NodeIndexOf, Reached, NextUnused, UsedByOthers;
    FirstListing(cluster, s.db, "n", "1");
    s' := Go(cluster, ORPHANED, s, Start(0, Listing("n", JoinOf("1"))));
    s' := Go(cluster, ORPHANED, s', Advance(0));
    s' := Go(cluster, ORPHANED, s', Advance(0));
    s' := Go(cluster, ORPHANED, s', Advance(0));
    assert s'.ops[0] == Won(cluster, "n", "1", false);
    s' := Go(cluster, ORPHANED, s', Advance(0));
    assert s'.ops == s.ops;
  }

  /** The sweep of an orphan claim, run across a rejoin of the claim's holder on another server, deletes
      the claim the rejoin has just re-asserted (re-asserting a claim does not rewrite it), and a join
      that listed before the rejoin takes the range a second time. */
  lemma SweepUnderARejoinDuplicates(cluster: Prefix)
    requires 1 < Slots(cluster)
    ensures exists s :: Reached(cluster, ORPHANED, s) && !DistinctRanges(s.db)
  {
    hide NodeIndexOf, AfterList, HeldClaims, Reached;
    var s := JoinLists(cluster);
    s := SweepJudges(cluster, s);
    s := HolderRejoins(cluster, s);
    s := Go(cluster, ORPHANED, s, Advance(1));
    s := Go(cluster, ORPHANED, s, Advance(2));
    s := Go(cluster, ORPHANED, s, Advance(2));
    assert s.db.peers["m"].cidr == Range1(cluster) && s.db.peers["n"].cidr == Range1(cluster);
  }
}
