/** The prune of a registry that other clients keep writing: plan a repository, re-check each planned
    manifest, and delete it only if the repository is still in the state the re-check read. */
module RegistryPrune {
  import opened PrunePlan

  /** A repository in the store: damaged, or its rows and the times of the manifests that can be read. */
  datatype Repository = Damaged | Repository(rows: seq<Row>, times: map<Digest, int>)

  type Registry = map<string, Repository>

  datatype Manifest = Manifest(repository: string, digest: Digest)

  datatype KeptManifest = KeptManifest(manifest: Manifest, reason: KeepReason)

  // ----- the registry's conditional DELETE -----

  datatype Reply = Accepted | Changed | Refused

  /** An index row other than the manifest's own names it. */
  predicate NamedByIndex(content: Content, rows: seq<Row>, d: Digest) {
    exists r :: r in rows && r.index && r.digest != d && d in content(r.digest).children
  }

  /** An index the server would have to read to know what it names cannot be read. */
  predicate IndexUnreadable(repo: Repository, d: Digest)
    requires repo.Repository?
  {
    exists r :: r in repo.rows && r.index && r.digest != d && r.digest !in repo.times
  }

  /** rows without any row of d. */
  function Without(rows: seq<Row>, d: Digest): (r: seq<Row>)
    ensures forall x :: x in r <==> x in rows && x.digest != d
  {
    if rows == [] then [] else
      var n := |rows| - 1;
      assert rows == rows[..n] + [rows[n]];
      Without(rows[..n], d) + if rows[n].digest != d then [rows[n]] else []
  }

  /** deleteManifest by digest with If-Match naming state, under the repository lock. The entity tag is a
      collision-free digest of the rows, so naming a state is naming the rows. */
  function Serve(content: Content, g: Registry, m: Manifest, state: seq<Row>): (reply: Reply) {
    if m.repository !in g || g[m.repository].Damaged? then Refused
    else
      var repo := g[m.repository];
      if m.digest !in Held(repo.rows) then Refused
      else if repo.rows != state || m.digest in TaggedSet(repo.rows) then Changed
      else if IndexUnreadable(repo, m.digest) || NamedByIndex(content, repo.rows, m.digest) then Refused
      else Accepted
  }

  /** The registry after that request. */
  function Served(content: Content, g: Registry, m: Manifest, state: seq<Row>): (g': Registry)
    ensures forall r :: r in g' <==> r in g
    ensures forall r :: r in g && r != m.repository ==> g'[r] == g[r]
    ensures forall r, x :: r in g && g[r].Repository? && x in g[r].rows && (x.tag != "" || x.digest != m.digest) ==>
              g'[r].Repository? && x in g'[r].rows
  {
    if Serve(content, g, m, state) == Accepted then
      var repo := g[m.repository];
      g[m.repository := Repository(Without(repo.rows, m.digest), repo.times)]
    else g
  }

  // ----- runs -----

  /** What becomes of a request: answered, never sent, or answered on a connection that broke. */
  datatype Delivery = Delivered | NotSent | ReplyLost

  /** Any other client's change to the registry, or a DELETE of the prune with the view it was judged on. */
  datatype Move = Other(after: Registry) | Ask(manifest: Manifest, view: View, delivery: Delivery)

  function Apply(content: Content, g: Registry, mv: Move): (g': Registry) {
    match mv
    case Other(after) => after
    case Ask(m, view, delivery) => if delivery.NotSent? then g else Served(content, g, m, view.rows)
  }

  function Replay(content: Content, start: Registry, run: seq<Move>): (g: Registry) {
    if run == [] then start else Apply(content, Replay(content, start, run[..|run| - 1]), run[|run| - 1])
  }

  /** The move is a DELETE of the prune that took effect. */
  predicate Deletes(content: Content, g: Registry, mv: Move) {
    mv.Ask? && !mv.delivery.NotSent? && Serve(content, g, mv.manifest, mv.view.rows) == Accepted
  }

  /** What a DELETE that takes effect must find: the repository as the re-check read it, the manifest in
      it, nothing that stays needing it, and every other index readable and not naming it. */
  ghost predicate SafeDelete(content: Content, now: int, g: Registry, m: Manifest, v: View) {
    && m.repository in g
    && g[m.repository].Repository?
    && g[m.repository].rows == v.rows
    && m.digest in Held(v.rows)
    && !Needed(content, v, now, m.digest)
    && !NamedByIndex(content, v.rows, m.digest)
    && !IndexUnreadable(g[m.repository], m.digest)
  }

  /** Every deletion along the run was safe at its own instant. */
  ghost predicate SafeRun(content: Content, now: int, start: Registry, run: seq<Move>) {
    run != [] ==>
      var earlier, mv := run[..|run| - 1], run[|run| - 1];
      var g := Replay(content, start, earlier);
      && SafeRun(content, now, start, earlier)
      && (Deletes(content, g, mv) ==> SafeDelete(content, now, g, mv.manifest, mv.view))
  }

  /** The manifests the prune deleted along the run. */
  function DeletedBy(content: Content, start: Registry, run: seq<Move>): (s: set<Manifest>) {
    if run == [] then {} else
      var earlier, mv := run[..|run| - 1], run[|run| - 1];
      DeletedBy(content, start, earlier)
      + if Deletes(content, Replay(content, start, earlier), mv) then {mv.manifest} else {}
  }

  /** Every manifest the re-check lets through is one no kept manifest needs. */
  ghost predicate Cleared(content: Content, now: int, mv: Move) {
    mv.Ask? ==> Readable(mv.view) && mv.manifest.digest in Doomed(content, mv.view, now)
  }

  /** A request for a cleared manifest is safe whatever the others did before it arrived. */
  lemma ClearedIsSafe(content: Content, now: int, g: Registry, mv: Move)
    requires mv.Ask? && Cleared(content, now, mv)
    ensures Deletes(content, g, mv) ==> SafeDelete(content, now, g, mv.manifest, mv.view)
  {
  }

  /** A run goes on safely. */
  lemma RunGrows(content: Content, now: int, start: Registry, run: seq<Move>, mv: Move)
    requires SafeRun(content, now, start, run) && Cleared(content, now, mv)
    ensures SafeRun(content, now, start, run + [mv])
    ensures Replay(content, start, run + [mv]) == Apply(content, Replay(content, start, run), mv)
    ensures DeletedBy(content, start, run + [mv]) ==
            DeletedBy(content, start, run) + if Deletes(content, Replay(content, start, run), mv) then {mv.manifest} else {}
  {
    assert (run + [mv])[..|run|] == run;
    if mv.Ask? {
      ClearedIsSafe(content, now, Replay(content, start, run), mv);
    }
    hide SafeDelete, Apply, Cleared, Serve;
  }

  /** Instant by instant: whatever a safe run deleted, nothing that stayed needed it then. */
  lemma {:induction false} SafeAtEveryInstant(content: Content, now: int, start: Registry, run: seq<Move>, i: nat)
    requires SafeRun(content, now, start, run) && i < |run| && Deletes(content, Replay(content, start, run[..i]), run[i])
    ensures SafeDelete(content, now, Replay(content, start, run[..i]), run[i].manifest, run[i].view)
  {
    hide Deletes, SafeDelete, Replay;
    var earlier := run[..|run| - 1];
    if i < |earlier| {
      assert earlier[..i] == run[..i];
      SafeAtEveryInstant(content, now, start, earlier, i);
    }
  }

  // ----- what a safe delete leaves alone -----

  /** Every image a tag, a young manifest, or anything kept holds together stays whole: each walk from a
      root still exists after the delete, and so does every tagged row. */
  lemma {:induction false} SafeDeleteKeepsImages(content: Content, now: int, g: Registry, m: Manifest, v: View, p: seq<Digest>)
    requires SafeDelete(content, now, g, m, v)
    requires Walk(content, v.rows, p) && Root(v, now, p[0])
    ensures Walk(content, Without(v.rows, m.digest), p)
    ensures forall r :: r in v.rows && r.tag != "" ==> r in Without(v.rows, m.digest)
  {
    forall i | 0 <= i < |p| ensures p[i] in Held(Without(v.rows, m.digest)) {
      assert Walk(content, v.rows, p[..i + 1]) && p[..i + 1][0] == p[0];
    }
    forall r | r in v.rows && r.tag != "" ensures r.digest != m.digest {
      RootNeeded(content, v, now, r.digest);
    }
  }

  /** What must stay in a repository shrinks with its rows. */
  lemma NeededShrinks(content: Content, v: View, w: View, now: int, d: Digest)
    requires Needed(content, w, now, d) && forall r :: r in w.rows ==> r in v.rows
    requires forall x :: x in Held(w.rows) && Young(w, now, x) ==> Young(v, now, x)
    ensures Needed(content, v, now, d)
  {
    var p :| Walk(content, w.rows, p) && Root(w, now, p[0]) && p[|p| - 1] == d;
    assert Walk(content, v.rows, p) && Root(v, now, p[0]);
  }

  /** Two reads of the same rows that agree on which of them are young give the same delete list. */
  lemma SameDeleteList(content: Content, v: View, w: View, now: int)
    requires v.rows == w.rows && forall x :: x in Held(v.rows) ==> (Young(w, now, x) <==> Young(v, now, x))
    ensures DeleteList(content, v, now) == DeleteList(content, w, now)
  {
    hide Needed;
    forall d | d in Held(v.rows) ensures Needed(content, v, now, d) <==> Needed(content, w, now, d) {
      if Needed(content, w, now, d) {
        NeededShrinks(content, v, w, now, d);
      }
      if Needed(content, v, now, d) {
        NeededShrinks(content, w, v, now, d);
      }
    }
    assert Doomed(content, v, now) == Doomed(content, w, now);
  }

  // ----- a prune nobody disturbs -----

  /** The rows left after asking for each manifest of todo in order: a request is refused only while an
      index still names the manifest. */
  function Remaining(content: Content, rows: seq<Row>, todo: seq<Digest>): (r: seq<Row>)
    ensures forall x :: x in r ==> x in rows
    ensures forall x :: x in rows && x.digest !in todo ==> x in r
  {
    if todo == [] then rows else
      var n := |todo| - 1;
      var r := Remaining(content, rows, todo[..n]);
      if NamedByIndex(content, r, todo[n]) then r else Without(r, todo[n])
  }

  /** How many of those requests are refused. */
  function Refusals(content: Content, rows: seq<Row>, todo: seq<Digest>): (n: nat) {
    if todo == [] then 0 else
      var n := |todo| - 1;
      Refusals(content, rows, todo[..n]) + if NamedByIndex(content, Remaining(content, rows, todo[..n]), todo[n]) then 1 else 0
  }

  /** The next request leaves the rows, or one manifest fewer. */
  lemma RemainingNext(content: Content, rows: seq<Row>, todo: seq<Digest>, k: nat)
    requires k < |todo|
    ensures var left := Remaining(content, rows, todo[..k]);
      && Remaining(content, rows, todo[..k + 1]) == (if NamedByIndex(content, left, todo[k]) then left else Without(left, todo[k]))
      && Refusals(content, rows, todo[..k + 1]) == Refusals(content, rows, todo[..k]) + if NamedByIndex(content, left, todo[k]) then 1 else 0
  {
    assert todo[..k + 1][..k] == todo[..k];
  }

  lemma NothingAsked(content: Content, rows: seq<Row>)
    ensures Remaining(content, rows, []) == rows && Refusals(content, rows, []) == 0
  {
  }

  lemma {:induction false} NoRefusals(content: Content, rows: seq<Row>, todo: seq<Digest>)
    ensures Refusals(content, rows, todo) == 0 <==>
            forall i :: 0 <= i < |todo| ==> !NamedByIndex(content, Remaining(content, rows, todo[..i]), todo[i])
  {
    hide NamedByIndex, Remaining;
    if todo != [] {
      var n := |todo| - 1;
      NoRefusals(content, rows, todo[..n]);
      forall i | 0 <= i < n ensures todo[..n][..i] == todo[..i] {
      }
    }
  }

  ghost predicate Whole(repo: Repository) {
    repo.Repository? && Held(repo.rows) <= repo.times.Keys
  }

  ghost function PlannedIn(content: Content, now: int, repo: Repository): (r: seq<Digest>)
    requires repo.Repository?
  {
    DeleteList(content, View(repo.rows, repo.times), now)
  }

  /** The repository after an undisturbed forced prune. */
  ghost function Pruned(content: Content, now: int, repo: Repository): (r: Repository)
    requires repo.Repository?
  {
    Repository(Remaining(content, repo.rows, PlannedIn(content, now, repo)), repo.times)
  }

  /** The manifest is in its repository's plan, and the repository can be read completely. */
  ghost predicate Ready(content: Content, now: int, g: Registry, m: Manifest) {
    && m.repository in g
    && Whole(g[m.repository])
    && m.digest in Doomed(content, View(g[m.repository].rows, g[m.repository].times), now)
  }

  /** Nothing but an index that names it refuses a ready manifest. */
  lemma ReadyServes(content: Content, now: int, g: Registry, m: Manifest)
    requires Ready(content, now, g, m)
    ensures var rows := g[m.repository].rows;
      Serve(content, g, m, rows) == if NamedByIndex(content, rows, m.digest) then Refused else Accepted
    ensures var repo := g[m.repository];
      Served(content, g, m, repo.rows)
      == g[m.repository := Repository(if NamedByIndex(content, repo.rows, m.digest) then repo.rows else Without(repo.rows, m.digest), repo.times)]
  {
    hide Needed;
    DoomedHeld(content, View(g[m.repository].rows, g[m.repository].times), now);
  }

  /** After the first i planned requests the next manifest is still in the repository and still unneeded. */
  lemma NextIsReady(content: Content, now: int, g: Registry, repo: string, todo: seq<Digest>, i: nat)
    requires repo in g && Whole(g[repo]) && todo == PlannedIn(content, now, g[repo]) && i < |todo|
    ensures var rows := Remaining(content, g[repo].rows, todo[..i]);
      Ready(content, now, g[repo := Repository(rows, g[repo].times)], Manifest(repo, todo[i]))
  {
    hide Needed, DeleteList, Remaining;
    var v := View(g[repo].rows, g[repo].times);
    var rows := Remaining(content, v.rows, todo[..i]);
    var w := View(rows, v.times);
    var d := todo[i];
    DeleteListIsDoomed(content, v, now);
    assert d in todo && d !in todo[..i];
    var r :| r in v.rows && r.digest == d;
    assert r in rows;
    if Needed(content, w, now, d) {
      NeededShrinks(content, v, w, now, d);
    }
  }

  /** So the next request is the next step of the undisturbed prune. */
  lemma NextStep(content: Content, now: int, g: Registry, repo: string, todo: seq<Digest>, i: nat)
    requires repo in g && Whole(g[repo]) && todo == PlannedIn(content, now, g[repo]) && i < |todo|
    ensures var rows, times := Remaining(content, g[repo].rows, todo[..i]), g[repo].times;
      Served(content, g[repo := Repository(rows, times)], Manifest(repo, todo[i]), rows)
      == g[repo := Repository(Remaining(content, g[repo].rows, todo[..i + 1]), times)]
  {
    hide PlannedIn, Ready, Served, Serve, NamedByIndex, Remaining, Held;
    var rows := Remaining(content, g[repo].rows, todo[..i]);
    NextIsReady(content, now, g, repo, todo, i);
    ReadyServes(content, now, g[repo := Repository(rows, g[repo].times)], Manifest(repo, todo[i]));
    RemainingNext(content, g[repo].rows, todo, i);
  }

  /** A row of index media type for a. */
  predicate IndexRow(rows: seq<Row>, a: Digest) {
    exists r :: r in rows && r.index && r.digest == a
  }

  /** No planned manifest is named by an index planned after it. */
  ghost predicate ParentsFirst(content: Content, rows: seq<Row>, todo: seq<Digest>) {
    forall i, j :: 0 <= i < j < |todo| && IndexRow(rows, todo[j]) ==> todo[i] !in content(todo[j]).children
  }

  /** A doomed manifest can be named only by a doomed index. */
  lemma OnlyDoomedName(content: Content, now: int, v: View, a: Digest, d: Digest)
    requires d in Doomed(content, v, now) && a in Held(v.rows) && d in content(a).children
    ensures a in Doomed(content, v, now)
  {
    if Needed(content, v, now, a) {
      SupportedNeeded(content, v, now, a, d);
    }
    hide Needed;
  }

  /** With parents first, an index left when the turn of a planned manifest comes does not name it. */
  lemma NamedByNoneLeft(content: Content, now: int, v: View, todo: seq<Digest>, i: nat, r: Row)
    requires todo == DeleteList(content, v, now) && ParentsFirst(content, v.rows, todo) && i < |todo|
    requires r in v.rows && r.index && r.digest !in todo[..i] && r.digest != todo[i]
    ensures todo[i] !in content(r.digest).children
  {
    hide DeleteList, Doomed;
    DeleteListIsDoomed(content, v, now);
    assert todo[i] in todo;
    if todo[i] in content(r.digest).children {
      OnlyDoomedName(content, now, v, r.digest, todo[i]);
    }
  }

  /** With parents first every request of the plan succeeds. */
  lemma {:induction false} ParentsFirstClears(content: Content, now: int, v: View, todo: seq<Digest>, i: nat)
    requires todo == DeleteList(content, v, now) && ParentsFirst(content, v.rows, todo) && i <= |todo|
    ensures forall x :: x in Remaining(content, v.rows, todo[..i]) ==> x.digest !in todo[..i]
  {
    hide DeleteList, ParentsFirst;
    if i > 0 {
      var rows, d := Remaining(content, v.rows, todo[..i - 1]), todo[i - 1];
      ParentsFirstClears(content, now, v, todo, i - 1);
      assert todo[..i] == todo[..i - 1] + [d] && todo[..i][..i - 1] == todo[..i - 1];
      forall r | r in rows && r.index && r.digest != d ensures d !in content(r.digest).children {
        NamedByNoneLeft(content, now, v, todo, i - 1, r);
      }
    }
  }

  /** A manifest an index planned after it names is refused, and stays to the end. */
  lemma {:induction false} RefusedStays(content: Content, rows: seq<Row>, todo: seq<Digest>, i: nat, own: Row, namer: Row, k: nat)
    requires i < k <= |todo| && own in rows && own.digest == todo[i] && Distinct(todo)
    requires namer in rows && namer.index && namer.digest !in todo[..i + 1] && todo[i] in content(namer.digest).children
    ensures own in Remaining(content, rows, todo[..k])
    decreases k
  {
    hide Without, Held, NamedByIndex;
    var left := Remaining(content, rows, todo[..k - 1]);
    RemainingNext(content, rows, todo, k - 1);
    if k - 1 == i {
      assert todo[..i + 1] == todo[..i] + [todo[i]];
      assert own.digest !in todo[..i] && namer.digest != todo[i];
      StillNamed(content, left, namer, todo[i]);
    } else {
      RefusedStays(content, rows, todo, i, own, namer, k - 1);
    }
  }

  lemma StillNamed(content: Content, rows: seq<Row>, namer: Row, d: Digest)
    requires namer in rows && namer.index && namer.digest != d && d in content(namer.digest).children
    ensures NamedByIndex(content, rows, d)
  {
  }

  /** No request of an undisturbed prune is refused exactly when no planned manifest is named by an index
      planned after it. */
  lemma NoneRefused(content: Content, now: int, v: View, todo: seq<Digest>)
    requires todo == DeleteList(content, v, now)
    ensures Refusals(content, v.rows, todo) == 0 <==> ParentsFirst(content, v.rows, todo)
  {
    hide DeleteList, Doomed, Remaining, Refusals;
    NoRefusals(content, v.rows, todo);
    DeleteListIsDoomed(content, v, now);
    if ParentsFirst(content, v.rows, todo) {
      forall i | 0 <= i < |todo| ensures !NamedByIndex(content, Remaining(content, v.rows, todo[..i]), todo[i]) {
        ParentsFirstClears(content, now, v, todo, i);
        forall r | r in Remaining(content, v.rows, todo[..i]) && r.index && r.digest != todo[i]
          ensures todo[i] !in content(r.digest).children
        {
          NamedByNoneLeft(content, now, v, todo, i, r);
        }
      }
    } else {
      var i, j :| 0 <= i < j < |todo| && IndexRow(v.rows, todo[j]) && todo[i] in content(todo[j]).children;
      var namer :| namer in v.rows && namer.index && namer.digest == todo[j];
      assert namer.digest !in todo[..i] && namer.digest != todo[i];
      StillNamed(content, Remaining(content, v.rows, todo[..i]), namer, todo[i]);
    }
  }

  /** An undisturbed forced prune of a readable repository deletes its whole plan exactly when no planned
      manifest is named by an index planned after it. */
  lemma UndisturbedPruneClears(content: Content, now: int, v: View)
    ensures var todo := DeleteList(content, v, now);
      (forall d :: d in todo ==> d !in Held(Remaining(content, v.rows, todo))) <==> ParentsFirst(content, v.rows, todo)
  {
    hide DeleteList, Doomed;
    var todo := DeleteList(content, v, now);
    DeleteListIsDoomed(content, v, now);
    DoomedHeld(content, v, now);
    assert todo[..|todo|] == todo;
    if ParentsFirst(content, v.rows, todo) {
      ParentsFirstClears(content, now, v, todo, |todo|);
    } else {
      var i, j :| 0 <= i < j < |todo| && IndexRow(v.rows, todo[j]) && todo[i] in content(todo[j]).children;
      assert todo[i] in todo;
      var own, namer :| own in v.rows && own.digest == todo[i] && namer in v.rows && namer.index && namer.digest == todo[j];
      RefusedStays(content, v.rows, todo, i, own, namer, |todo|);
    }
  }

  // ----- a nested index -----

  /** An untagged index whose row comes before its untagged parent's, both two hours old. */
  const NESTED := [Row("c", true, ""), Row("p", true, "")]

  function NestedView(now: int): View {
    View(NESTED, map["c" := now - 2 * PRUNE_GRACE, "p" := now - 2 * PRUNE_GRACE])
  }

  lemma NestedRows()
    ensures Held(NESTED) == {"c", "p"} && Order(NESTED) == ["c", "p"]
  {
    assert NESTED[0] in NESTED && NESTED[1] in NESTED;
    assert NESTED[..1] == [NESTED[0]] && NESTED[..1][..0] == [];
    assert Order(NESTED[..1]) == ["c"];
  }

  lemma NestedDoomed(content: Content, now: int)
    ensures Doomed(content, NestedView(now), now) == {"c", "p"}
  {
    hide Needed, Held, Order;
    NestedRows();
    var v := NestedView(now);
    forall x ensures !Root(v, now, x) {
    }
    forall d | d in Held(v.rows) ensures !Needed(content, v, now, d) {
      NoRootNoNeed(content, v, now, d);
    }
  }

  lemma NestedPlan(content: Content, now: int)
    requires content("p").children == ["c"] && content("c").children == ["x"]
    ensures DeleteList(content, NestedView(now), now) == ["c", "p"]
  {
    hide Doomed, Held, Order, Select;
    NestedRows();
    NestedDoomed(content, now);
    assert Indexes(content, NESTED) == {"c", "p"};
    assert {"c", "p"} * {"c", "p"} == {"c", "p"} && {"c", "p"} - {"c", "p"} == {};
    SelectAll(["c", "p"], {"c", "p"});
    SelectNone(["c", "p"], {});
  }

  lemma NoRootNoNeed(content: Content, v: View, now: int, d: Digest)
    requires forall x :: !Root(v, now, x)
    ensures !Needed(content, v, now, d)
  {
  }

  lemma {:induction false} SelectAll(s: seq<Digest>, chosen: set<Digest>)
    requires forall d :: d in s ==> d in chosen
    ensures Select(s, chosen) == s
  {
    hide Distinct;
    if s != [] {
      SelectAll(s[..|s| - 1], chosen);
      assert s == s[..|s| - 1] + [s[|s| - 1]];
    }
  }

  lemma {:induction false} SelectNone(s: seq<Digest>, chosen: set<Digest>)
    requires forall d :: d in s ==> d !in chosen
    ensures Select(s, chosen) == []
  {
    hide Distinct;
    if s != [] {
      SelectNone(s[..|s| - 1], chosen);
    }
  }

  /** Its plan asks for the nested index first, the registry refuses it because the parent still names it,
      and it is left behind. */
  lemma NestedIndexIsRefused(content: Content, now: int)
    requires content("p").children == ["c"] && content("c").children == ["x"]
    ensures var todo := DeleteList(content, NestedView(now), now);
      && todo == ["c", "p"]
      && !ParentsFirst(content, NESTED, todo)
      && "c" in Held(Remaining(content, NESTED, todo))
  {
    hide DeleteList;
    NestedPlan(content, now);
    var todo := ["c", "p"];
    assert NESTED[0] in NESTED && NESTED[1] in NESTED;
    assert todo[..1] == ["c"];
    RefusedStays(content, NESTED, todo, 0, NESTED[0], NESTED[1], 2);
    assert todo[..2] == todo;
    assert IndexRow(NESTED, todo[1]) && todo[0] in content(todo[1]).children;
  }
}
