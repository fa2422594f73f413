/** The prune plan of one registry repository: which untagged manifests nothing
    that stays depends on, found by propagating keeps to a fixpoint. */
module PrunePlan {
  import opened Wrappers

  type Digest = string

  /** What a manifest says about other manifests: an index's children, a referrer's subject. */
  datatype Links = Links(children: seq<Digest>, subject: Option<Digest>)

  /** Manifests are content-addressed: a digest determines the links. */
  type Content = Digest -> Links

  /** One row of a repository's index; tag is empty for an untagged row, index says
      whether the media type is an image index. */
  datatype Row = Row(digest: Digest, index: bool, tag: string)

  /** What one read of a repository found: its rows in order, and the modification
      time of every manifest that could be read. */
  datatype View = View(rows: seq<Row>, times: map<Digest, int>)

  /** One hour, in nanoseconds. */
  const PRUNE_GRACE := 3_600_000_000_000

  datatype KeepReason =
    | ChildOfKept
    | Referrer
    | Recent
    | Unreadable
    | TaggedSincePlan
    | GoneSincePlan
    | ChangedSincePlan

  datatype Kept = Kept(digest: Digest, reason: KeepReason)

  /** A repository's plan: manifests to delete in order, and untagged ones kept. */
  datatype Plan = Plan(delete: seq<Digest>, kept: seq<Kept>)

  // ----- what a row list says -----

  function Held(rows: seq<Row>): (s: set<Digest>) {
    set r | r in rows :: r.digest
  }

  function TaggedSet(rows: seq<Row>): (s: set<Digest>)
    ensures s <= Held(rows)
  {
    set r | r in rows && r.tag != "" :: r.digest
  }

  ghost predicate Distinct<T>(s: seq<T>) {
    forall i, j :: 0 <= i < j < |s| ==> s[i] != s[j]
  }

  /** The digests in the order of their first row. */
  function Order(rows: seq<Row>): (order: seq<Digest>)
    ensures forall d :: d in order <==> d in Held(rows)
    ensures Distinct(order)
  {
    if rows == [] then [] else
      var n := |rows| - 1;
      var before := Order(rows[..n]);
      assert rows == rows[..n] + [rows[n]];
      if rows[n].digest in before then before else before + [rows[n].digest]
  }

  /** The members of chosen, in the order of s. */
  function Select(s: seq<Digest>, chosen: set<Digest>): (r: seq<Digest>)
    ensures forall d :: d in r <==> d in s && d in chosen
    ensures Distinct(s) ==> Distinct(r)
  {
    if s == [] then [] else
      var n := |s| - 1;
      assert s == s[..n] + [s[n]];
      Select(s[..n], chosen) + if s[n] in chosen then [s[n]] else []
  }

  predicate Young(v: View, now: int, d: Digest) {
    d in v.times && now - v.times[d] < PRUNE_GRACE
  }

  predicate Readable(v: View) {
    Held(v.rows) <= v.times.Keys
  }

  // ----- what must stay, by reachability -----

  /** Something a prune never deletes whatever it links to: tagged, or young enough
      to belong to a push in flight. */
  predicate Root(v: View, now: int, d: Digest) {
    d in TaggedSet(v.rows) || (d in Held(v.rows) && Young(v, now, d))
  }

  /** Keeping a keeps b: a is an index naming b, or b refers to a. */
  predicate Supports(content: Content, a: Digest, b: Digest) {
    b in content(a).children || content(b).subject == Some(a)
  }

  /** A walk through the repository along keeps. */
  ghost predicate Walk(content: Content, rows: seq<Row>, p: seq<Digest>) {
    && p != []
    && (forall i :: 0 <= i < |p| ==> p[i] in Held(rows))
    && (forall i :: 0 < i < |p| ==> Supports(content, p[i - 1], p[i]))
  }

  /** d must stay: a walk leads to it from a root. */
  ghost predicate Needed(content: Content, v: View, now: int, d: Digest) {
    exists p :: Walk(content, v.rows, p) && Root(v, now, p[0]) && p[|p| - 1] == d
  }

  lemma RootNeeded(content: Content, v: View, now: int, d: Digest)
    requires Root(v, now, d)
    ensures Needed(content, v, now, d)
  {
    assert Walk(content, v.rows, [d]);
  }

  lemma SupportedNeeded(content: Content, v: View, now: int, a: Digest, b: Digest)
    requires Needed(content, v, now, a) && Supports(content, a, b) && b in Held(v.rows)
    ensures Needed(content, v, now, b)
  {
    var p :| Walk(content, v.rows, p) && Root(v, now, p[0]) && p[|p| - 1] == a;
    assert Walk(content, v.rows, p + [b]) && (p + [b])[0] == p[0];
  }

  /** A set of held digests that contains the roots and is closed under keeping. */
  ghost predicate Closed(content: Content, v: View, now: int, kept: set<Digest>) {
    && (forall d :: Root(v, now, d) ==> d in kept)
    && (forall a, b :: a in kept && b in Held(v.rows) && Supports(content, a, b) ==> b in kept)
  }

  /** Every closed set contains whatever must stay, so the needed set is the least one. */
  lemma {:induction false} NeededIsLeast(content: Content, v: View, now: int, kept: set<Digest>, p: seq<Digest>)
    requires Closed(content, v, now, kept) && Walk(content, v.rows, p) && Root(v, now, p[0])
    ensures p[|p| - 1] in kept
    decreases |p|
  {
    if |p| > 1 {
      NeededIsLeast(content, v, now, kept, p[..|p| - 1]);
    }
  }

  // ----- the plan -----

  /** The untagged manifests nothing that stays depends on. */
  ghost function Doomed(content: Content, v: View, now: int): (s: set<Digest>) {
    set d | d in Held(v.rows) && !Needed(content, v, now, d)
  }

  function Indexes(content: Content, rows: seq<Row>): (s: set<Digest>) {
    set d | d in Held(rows) && content(d).children != []
  }

  /** The delete list: doomed indexes first, then the rest, each in row order. */
  ghost function DeleteList(content: Content, v: View, now: int): (r: seq<Digest>) {
    var order, doomed, indexes := Order(v.rows), Doomed(content, v, now), Indexes(content, v.rows);
    Select(order, doomed * indexes) + Select(order, doomed - indexes)
  }

  lemma DistinctAppend<T>(s: seq<T>, t: seq<T>)
    requires Distinct(s) && Distinct(t) && forall x :: x in s ==> x !in t
    ensures Distinct(s + t)
  {
    var u := s + t;
    forall i, j | 0 <= i < j < |u| ensures u[i] != u[j] {
      if i < |s| <= j {
        assert u[i] in s && u[j] in t;
      }
    }
  }

  /** The delete list holds each doomed manifest once and nothing else. */
  lemma DeleteListIsDoomed(content: Content, v: View, now: int)
    ensures forall d :: d in DeleteList(content, v, now) <==> d in Doomed(content, v, now)
    ensures Distinct(DeleteList(content, v, now))
  {
    hide Doomed, Held, Order, Indexes, Select, Distinct;
    var order, doomed, indexes := Order(v.rows), Doomed(content, v, now), Indexes(content, v.rows);
    DistinctAppend(Select(order, doomed * indexes), Select(order, doomed - indexes));
    assert forall d :: d in doomed ==> d in Held(v.rows) by { DoomedHeld(content, v, now); }
  }

  lemma DoomedHeld(content: Content, v: View, now: int)
    ensures Doomed(content, v, now) <= Held(v.rows) - TaggedSet(v.rows)
  {
    forall d | d in Doomed(content, v, now) ensures d !in TaggedSet(v.rows) {
      if d in TaggedSet(v.rows) {
        RootNeeded(content, v, now, d);
      }
    }
  }

  /** Why d stays, in the words of the plan. */
  ghost predicate Justified(content: Content, v: View, now: int, d: Digest, why: KeepReason) {
    match why
    case Recent => Young(v, now, d)
    case ChildOfKept => !Young(v, now, d) && exists a :: Needed(content, v, now, a) && d in content(a).children
    case Referrer => !Young(v, now, d) && exists a :: Needed(content, v, now, a) && content(d).subject == Some(a)
    case _ => false
  }

  function Names(kept: seq<Kept>): (r: seq<Digest>)
    ensures |r| == |kept|
  {
    seq(|kept|, i requires 0 <= i < |kept| => kept[i].digest)
  }

  /** The plan a read must give: everything untagged is in exactly one list. */
  ghost predicate PlanOf(content: Content, v: View, now: int, p: Plan) {
    var order, untagged := Order(v.rows), Held(v.rows) - TaggedSet(v.rows);
    if Readable(v) then
      && p.delete == DeleteList(content, v, now)
      && Names(p.kept) == Select(order, untagged - Doomed(content, v, now))
      && (forall k :: k in p.kept ==> Justified(content, v, now, k.digest, k.reason))
    else
      && p.delete == []
      && Names(p.kept) == Select(order, untagged)
      && (forall k :: k in p.kept ==> k.reason == Unreadable)
  }

  /** No manifest is in a plan twice, nor both deleted and kept. */
  lemma PlanIsDisjoint(content: Content, v: View, now: int, p: Plan)
    requires PlanOf(content, v, now, p)
    ensures Distinct(p.delete + Names(p.kept))
  {
    hide Doomed, Held, TaggedSet, Order, Select, DeleteList, Justified;
    DeleteListIsDoomed(content, v, now);
    DistinctAppend(p.delete, Names(p.kept));
  }

  // ----- computing the plan -----

  /** The keep map's meaning so far: only needed manifests, each with a true reason (none for a tag). */
  ghost predicate Sound(content: Content, v: View, now: int, kept: map<Digest, Option<KeepReason>>) {
    && (forall d :: d in kept ==> d in Held(v.rows) && Needed(content, v, now, d))
    && (forall d :: d in kept ==> (kept[d].None? <==> d in TaggedSet(v.rows)))
    && (forall d :: d in kept && kept[d].Some? ==> Justified(content, v, now, d, kept[d].value))
    && (forall d :: Root(v, now, d) ==> d in kept)
  }

  /** Keeping one more manifest for a true reason stays sound. */
  lemma KeepOneMore(content: Content, v: View, now: int, kept: map<Digest, Option<KeepReason>>, a: Digest, b: Digest, why: KeepReason)
    requires Sound(content, v, now, kept) && a in kept && b !in kept && b in Held(v.rows)
    requires (why == ChildOfKept && b in content(a).children) || (why == Referrer && content(b).subject == Some(a))
    ensures Sound(content, v, now, kept[b := Some(why)])
  {
    hide Needed, Walk, Held, TaggedSet;
    SupportedNeeded(content, v, now, a, b);
  }

  /** Nothing follows from d that is not kept already. */
  predicate Settled(content: Content, rows: seq<Row>, kept: set<Digest>, d: Digest) {
    if d in kept then
      forall c :: c in content(d).children && c in Held(rows) ==> c in kept
    else
      content(d).subject.None? || content(d).subject.value !in kept
  }

  /** Once every manifest is settled the keep map is exactly what must stay. */
  lemma SettledIsNeeded(content: Content, v: View, now: int, kept: map<Digest, Option<KeepReason>>)
    requires Sound(content, v, now, kept)
    requires forall d :: d in Held(v.rows) ==> Settled(content, v.rows, kept.Keys, d)
    ensures kept.Keys == Held(v.rows) - Doomed(content, v, now)
  {
    hide Held, TaggedSet, Young;
    assert Closed(content, v, now, kept.Keys);
    forall d | d in Held(v.rows) && Needed(content, v, now, d) ensures d in kept {
      var p :| Walk(content, v.rows, p) && Root(v, now, p[0]) && p[|p| - 1] == d;
      NeededIsLeast(content, v, now, kept.Keys, p);
    }
  }

  /** The index read: every digest in first-row order, and which of them any row tags. */
  method ReadRows(rows: seq<Row>) returns (order: seq<Digest>, tagged: set<Digest>)
    ensures order == Order(rows) && tagged == TaggedSet(rows)
  {
    order, tagged := [], {};
    for i := 0 to |rows|
      invariant order == Order(rows[..i]) && tagged == TaggedSet(rows[..i])
    {
      assert rows[..i + 1] == rows[..i] + [rows[i]];
      if rows[i].digest !in order {
        order := order + [rows[i].digest];
      }
      if rows[i].tag != "" {
        tagged := tagged + {rows[i].digest};
      }
      assert rows[..i + 1][..i] == rows[..i];
    }
    assert rows[..|rows|] == rows;
  }

  /** What stays on its own account: tagged manifests, and young ones. */
  method KeepRoots(content: Content, v: View, now: int, order: seq<Digest>, tagged: set<Digest>)
    returns (kept: map<Digest, Option<KeepReason>>)
    requires Readable(v) && order == Order(v.rows) && tagged == TaggedSet(v.rows)
    ensures Sound(content, v, now, kept)
  {
    hide Needed, Walk, Held, Order;
    kept := map[];
    for i := 0 to |order|
      invariant forall d :: d in kept ==> d in order[..i] && Root(v, now, d)
      invariant forall d :: d in kept ==> kept[d] == if d in tagged then None else Some(Recent)
      invariant forall d :: d in order[..i] && Root(v, now, d) ==> d in kept
    {
      assert order[..i + 1] == order[..i] + [order[i]];
      if order[i] in tagged {
        kept := kept[order[i] := None];
      } else if now - v.times[order[i]] < PRUNE_GRACE {
        kept := kept[order[i] := Some(Recent)];
      }
    }
    assert order[..|order|] == order;
    forall d | d in kept ensures Needed(content, v, now, d) {
      RootNeeded(content, v, now, d);
    }
  }

  /** A kept index keeps its children in the repository. */
  method KeepChildren(content: Content, v: View, now: int, kept0: map<Digest, Option<KeepReason>>, d: Digest)
    returns (kept: map<Digest, Option<KeepReason>>, changed: bool)
    requires Sound(content, v, now, kept0) && d in kept0
    ensures Sound(content, v, now, kept) && kept0.Keys <= kept.Keys
    ensures changed <==> kept.Keys != kept0.Keys
    ensures !changed ==> kept == kept0 && Settled(content, v.rows, kept.Keys, d)
  {
    hide Needed, Walk, Held, TaggedSet, Root, Sound, Young;
    var children := content(d).children;
    kept, changed := kept0, false;
    for i := 0 to |children|
      invariant Sound(content, v, now, kept) && kept0.Keys <= kept.Keys
      invariant changed <==> kept.Keys != kept0.Keys
      invariant !changed ==> kept == kept0
      invariant forall k :: 0 <= k < i && children[k] in Held(v.rows) ==> children[k] in kept
    {
      var c := children[i];
      if c !in kept && c in Held(v.rows) {
        KeepOneMore(content, v, now, kept, d, c, ChildOfKept);
        kept, changed := kept[c := Some(ChildOfKept)], true;
      }
    }
  }

  /** One pass over every manifest in order. */
  method Pass(content: Content, v: View, now: int, order: seq<Digest>, kept0: map<Digest, Option<KeepReason>>)
    returns (kept: map<Digest, Option<KeepReason>>, changed: bool)
    requires order == Order(v.rows) && Sound(content, v, now, kept0)
    ensures Sound(content, v, now, kept) && kept0.Keys <= kept.Keys
    ensures changed <==> kept.Keys != kept0.Keys
    ensures !changed ==> kept == kept0 && forall d :: d in Held(v.rows) ==> Settled(content, v.rows, kept.Keys, d)
  {
    hide Needed, Walk, Held, TaggedSet, Root, Sound, Young, Order;
    kept, changed := kept0, false;
    for i := 0 to |order|
      invariant Sound(content, v, now, kept) && kept0.Keys <= kept.Keys
      invariant changed <==> kept.Keys != kept0.Keys
      invariant !changed ==> kept == kept0 && forall k :: 0 <= k < i ==> Settled(content, v.rows, kept.Keys, order[k])
    {
      var d := order[i];
      if d in kept {
        var more, grew := KeepChildren(content, v, now, kept, d);
        kept, changed := more, changed || grew;
      } else if content(d).subject.Some? && content(d).subject.value in kept {
        assert d in Held(v.rows);
        KeepOneMore(content, v, now, kept, content(d).subject.value, d, Referrer);
        kept, changed := kept[d := Some(Referrer)], true;
      }
    }
  }

  /** The fixpoint: passes until nothing changes. */
  method Propagate(content: Content, v: View, now: int, order: seq<Digest>, roots: map<Digest, Option<KeepReason>>)
    returns (kept: map<Digest, Option<KeepReason>>)
    requires order == Order(v.rows) && Sound(content, v, now, roots)
    ensures Sound(content, v, now, kept) && kept.Keys == Held(v.rows) - Doomed(content, v, now)
  {
    hide Needed, Walk, Held, TaggedSet, Root, Young, Order;
    kept := roots;
    var changed := true;
    while changed
      invariant Sound(content, v, now, kept)
      invariant !changed ==> forall d :: d in Held(v.rows) ==> Settled(content, v.rows, kept.Keys, d)
      decreases Held(v.rows) - kept.Keys, changed
    {
      kept, changed := Pass(content, v, now, order, kept);
    }
    SettledIsNeeded(content, v, now, kept);
  }

  lemma NamesAppend(kept: seq<Kept>, k: Kept)
    ensures Names(kept + [k]) == Names(kept) + [k.digest]
  {
  }

  lemma SelectNext(s: seq<Digest>, chosen: set<Digest>, i: nat)
    requires i < |s|
    ensures Select(s[..i + 1], chosen) == Select(s[..i], chosen) + if s[i] in chosen then [s[i]] else []
  {
    assert s[..i + 1][..i] == s[..i];
  }

  /** A repository that could not be read completely keeps every untagged manifest. */
  method KeepAll(order: seq<Digest>, untagged: set<Digest>) returns (kept: seq<Kept>)
    ensures Names(kept) == Select(order, untagged)
    ensures forall k :: k in kept ==> k.reason == Unreadable
  {
    kept := [];
    for i := 0 to |order|
      invariant Names(kept) == Select(order[..i], untagged)
      invariant forall k :: k in kept ==> k.reason == Unreadable
    {
      SelectNext(order, untagged, i);
      if order[i] in untagged {
        NamesAppend(kept, Kept(order[i], Unreadable));
        kept := kept + [Kept(order[i], Unreadable)];
      }
    }
    assert order[..|order|] == order;
  }

  /** The three lists of the plan, in row order: kept ones with their reasons, indexes and others to delete. */
  method Divide(content: Content, order: seq<Digest>, tagged: set<Digest>, keep: map<Digest, Option<KeepReason>>)
    returns (indexes: seq<Digest>, others: seq<Digest>, kept: seq<Kept>)
    requires forall d :: d in tagged ==> d in keep
    requires forall d :: d in keep && d !in tagged ==> keep[d].Some?
    ensures indexes == Select(order, set d | d in order && d !in keep && content(d).children != [])
    ensures others == Select(order, set d | d in order && d !in keep && content(d).children == [])
    ensures Names(kept) == Select(order, keep.Keys - tagged)
    ensures forall k :: k in kept ==> k.digest in keep && keep[k.digest] == Some(k.reason)
  {
    indexes, others, kept := [], [], [];
    ghost var first := set d | d in order && d !in keep && content(d).children != [];
    ghost var second := set d | d in order && d !in keep && content(d).children == [];
    for i := 0 to |order|
      invariant indexes == Select(order[..i], first) && others == Select(order[..i], second)
      invariant Names(kept) == Select(order[..i], keep.Keys - tagged)
      invariant forall k :: k in kept ==> k.digest in keep && keep[k.digest] == Some(k.reason)
    {
      var d := order[i];
      SelectNext(order, first, i);
      SelectNext(order, second, i);
      SelectNext(order, keep.Keys - tagged, i);
      if d in tagged {
      } else if d in keep {
        NamesAppend(kept, Kept(d, keep[d].value));
        kept := kept + [Kept(d, keep[d].value)];
      } else if content(d).children != [] {
        indexes := indexes + [d];
      } else {
        others := others + [d];
      }
    }
    assert order[..|order|] == order;
  }

  /** planRepository after its read of the index and the manifests. */
  method PlanRepository(content: Content, v: View, now: int) returns (p: Plan)
    ensures PlanOf(content, v, now, p)
  {
    hide Needed, Walk, Held, TaggedSet, Young, Order;
    var order, tagged := ReadRows(v.rows);
    if !Readable(v) {
      var untouched := KeepAll(order, Held(v.rows) - tagged);
      return Plan([], untouched);
    }
    var roots := KeepRoots(content, v, now, order, tagged);
    var keep := Propagate(content, v, now, order, roots);
    ghost var doomed, parents := Doomed(content, v, now), Indexes(content, v.rows);
    var indexes, others, kept := Divide(content, order, tagged, keep);
    assert doomed * parents == set d | d in order && d !in keep && content(d).children != [];
    assert doomed - parents == set d | d in order && d !in keep && content(d).children == [];
    assert keep.Keys - tagged == Held(v.rows) - tagged - doomed;
    p := Plan(indexes + others, kept);
  }
}
