/** What a concurrent push can and cannot do to a prune: the registry's row rules for pushes, the pushes a
    conditional DELETE notices, and the one it does not. */
module PruneRace {
  import opened PrunePlan
  import opened RegistryPrune

  /** The first row carrying the tag. */
  function TagAt(rows: seq<Row>, tag: string): (i: nat)
    ensures i <= |rows|
    ensures i < |rows| ==> rows[i].tag == tag
    ensures forall k :: 0 <= k < i ==> rows[k].tag != tag
  {
    if rows == [] || rows[0].tag == tag then 0 else 1 + TagAt(rows[1..], tag)
  }

  /** The row that loses its tag goes, or stays untagged when it is its digest's last. */
  function Untag(rows: seq<Row>, tag: string): (r: seq<Row>)
    ensures forall x :: x in r ==> x.digest in Held(rows)
  {
    var i := TagAt(rows, tag);
    if i == |rows| then rows
    else if exists r :: r in rows && r.digest == rows[i].digest && r.tag != tag then rows[..i] + rows[i + 1..]
    else
      assert forall x :: x in rows[i := rows[i].(tag := "")] ==> x in rows || x.digest == rows[i].digest;
      rows[i := rows[i].(tag := "")]
  }

  /** rows without the untagged rows of d. */
  function DropUntagged(rows: seq<Row>, d: Digest): (r: seq<Row>)
    ensures forall x :: x in r <==> x in rows && !(x.digest == d && x.tag == "")
  {
    if rows == [] then [] else
      var n := |rows| - 1;
      assert rows == rows[..n] + [rows[n]];
      DropUntagged(rows[..n], d) + if rows[n].digest == d && rows[n].tag == "" then [] else [rows[n]]
  }

  /** A push of a tagged manifest. */
  function PutTagged(rows: seq<Row>, d: Digest, index: bool, tag: string): (r: seq<Row>)
    requires tag != ""
    ensures Row(d, index, tag) in r
  {
    if Row(d, index, tag) in rows then rows
    else DropUntagged(Untag(rows, tag), d) + [Row(d, index, tag)]
  }

  /** A tagged push loses no manifest and no other tag: the repository holds what it held and the pushed
      manifest, and every row of another tag stays. */
  lemma PutTaggedLosesNothing(rows: seq<Row>, d: Digest, index: bool, tag: string)
    requires tag != ""
    ensures Held(PutTagged(rows, d, index, tag)) == Held(rows) + {d}
    ensures forall r :: r in rows && r.tag != "" && r.tag != tag ==> r in PutTagged(rows, d, index, tag)
  {
    UntagLosesNothing(rows, tag);
    var pushed := PutTagged(rows, d, index, tag);
    if Row(d, index, tag) !in rows {
      forall x | x in Held(rows) ensures x in Held(pushed) {
        var r :| r in Untag(rows, tag) && r.digest == x;
        if x == d {
          assert Row(d, index, tag) in pushed;
        } else {
          assert r in pushed;
        }
      }
    }
  }

  lemma UntagLosesNothing(rows: seq<Row>, tag: string)
    requires tag != ""
    ensures Held(Untag(rows, tag)) == Held(rows)
    ensures forall r :: r in rows && r.tag != tag ==> r in Untag(rows, tag)
  {
    var i, left := TagAt(rows, tag), Untag(rows, tag);
    if i < |rows| {
      forall r | r in rows && r.tag != tag ensures r in left {
        var k :| 0 <= k < |rows| && rows[k] == r;
        assert k != i;
        if k > i {
          assert |left| < |rows| ==> left[k - 1] == r;
          assert |left| == |rows| ==> left[k] == r;
        } else {
          assert left[k] == r;
        }
      }
      forall x | x in Held(rows) ensures x in Held(left) {
        UntagHolds(rows, tag, x);
      }
    }
  }

  lemma UntagHolds(rows: seq<Row>, tag: string, x: Digest)
    requires x in Held(rows)
    ensures x in Held(Untag(rows, tag))
  {
    var i, left := TagAt(rows, tag), Untag(rows, tag);
    if i < |rows| && |left| < |rows| {
      var other :| other in rows && other.digest == rows[i].digest && other.tag != tag;
      var r :| r in rows && r.digest == x && (x == rows[i].digest ==> r == other);
      var k :| 0 <= k < |rows| && rows[k] == r;
      assert left[if k < i then k else k - 1] == r;
    } else if i < |rows| {
      var r :| r in rows && r.digest == x;
      var k :| 0 <= k < |rows| && rows[k] == r;
      assert left[k].digest == x;
    }
  }

  /** A push by digest. */
  function PutUntagged(rows: seq<Row>, d: Digest, index: bool): (r: seq<Row>)
    ensures rows <= r && Held(r) == Held(rows) + {d}
  {
    if d in Held(rows) then rows else
      assert Row(d, index, "") in rows + [Row(d, index, "")];
      rows + [Row(d, index, "")]
  }

  // ----- what the row rules keep -----

  /** Two rows never share a tag, and an untagged row is its manifest's only one. */
  predicate Apart(a: Row, b: Row) {
    !(a.tag == b.tag && a.tag != "") && !(a.digest == b.digest && (a.tag == "" || b.tag == ""))
  }

  ghost predicate Tidy(rows: seq<Row>) {
    forall i, j :: 0 <= i < j < |rows| ==> Apart(rows[i], rows[j])
  }

  lemma TidyAppend(rows: seq<Row>, r: Row)
    requires Tidy(rows) && forall x :: x in rows ==> Apart(x, r)
    ensures Tidy(rows + [r])
  {
  }

  lemma {:induction false} TidyDropped(rows: seq<Row>, d: Digest)
    requires Tidy(rows)
    ensures Tidy(DropUntagged(rows, d)) && Tidy(Without(rows, d))
  {
    if rows != [] {
      var n := |rows| - 1;
      TidyDropped(rows[..n], d);
      forall x | x in rows[..n] ensures Apart(x, rows[n]) {
      }
      TidyAppend(DropUntagged(rows[..n], d), rows[n]);
      TidyAppend(Without(rows[..n], d), rows[n]);
    }
  }

  lemma TidyWithout(rows: seq<Row>, i: nat)
    requires Tidy(rows) && i < |rows|
    ensures Tidy(rows[..i] + rows[i + 1..])
  {
    hide Apart;
    var left := rows[..i] + rows[i + 1..];
    forall j, k | 0 <= j < k < |left| ensures Apart(left[j], left[k]) {
      assert left[j] == rows[if j < i then j else j + 1] && left[k] == rows[if k < i then k else k + 1];
    }
  }

  lemma TidyInPlace(rows: seq<Row>, i: nat)
    requires Tidy(rows) && i < |rows| && forall k :: 0 <= k < |rows| && k != i ==> rows[k].digest != rows[i].digest
    ensures Tidy(rows[i := rows[i].(tag := "")])
  {
  }

  lemma TagsAreUnique(rows: seq<Row>, i: nat, k: nat)
    requires Tidy(rows) && i < |rows| && k < |rows| && i != k && rows[i].tag != ""
    ensures rows[k].tag != rows[i].tag
  {
    assert Apart(rows[if k < i then k else i], rows[if k < i then i else k]);
  }

  lemma TidyUntag(rows: seq<Row>, tag: string)
    requires Tidy(rows) && tag != ""
    ensures Tidy(Untag(rows, tag)) && forall x :: x in Untag(rows, tag) ==> x.tag != tag
  {
    hide Tidy, Apart;
    var i := TagAt(rows, tag);
    if i < |rows| {
      forall k | 0 <= k < |rows| && k != i ensures rows[k].tag != tag {
        TagsAreUnique(rows, i, k);
      }
      if exists r :: r in rows && r.digest == rows[i].digest && r.tag != tag {
        TidyWithout(rows, i);
      } else {
        forall k | 0 <= k < |rows| && k != i ensures rows[k].digest != rows[i].digest {
          assert rows[k] in rows;
        }
        TidyInPlace(rows, i);
      }
    }
  }

  /** Pushes and deletes keep an index tidy, so after a tagged push the tag names the pushed manifest alone
      and the manifest has no untagged row. */
  lemma RowRulesKeepTidy(rows: seq<Row>, d: Digest, index: bool, tag: string)
    requires Tidy(rows)
    ensures tag != "" ==> Tidy(PutTagged(rows, d, index, tag))
    ensures Tidy(PutUntagged(rows, d, index)) && Tidy(Without(rows, d))
  {
    TidyDropped(rows, d);
    if tag != "" && Row(d, index, tag) !in rows {
      TidyUntag(rows, tag);
      hide Untag;
      TidyDropped(Untag(rows, tag), d);
      TidyAppend(DropUntagged(Untag(rows, tag), d), Row(d, index, tag));
    }
    if d !in Held(rows) {
      TidyAppend(rows, Row(d, index, ""));
    }
  }

  /** A DELETE judged before a push that moved a tag, or before a push of a manifest the repository did not
      hold, deletes nothing: a manifest the repository held is answered as changed, another as not there. */
  lemma PushStopsTheDelete(content: Content, g: Registry, m: Manifest, before: seq<Row>, d: Digest, index: bool, tag: string)
    requires m.repository in g && g[m.repository].Repository?
    requires
      || (tag != "" && Row(d, index, tag) !in before && g[m.repository].rows == PutTagged(before, d, index, tag))
      || (tag == "" && d !in Held(before) && g[m.repository].rows == PutUntagged(before, d, index))
    ensures Serve(content, g, m, before) == if m.digest in Held(before) + {d} then Changed else Refused
    ensures Served(content, g, m, before) == g
  {
    if tag != "" {
      PutTaggedLosesNothing(before, d, index, tag);
    }
    assert Row(d, index, tag) in g[m.repository].rows && Row(d, index, tag) !in before;
  }

  /** What the repository needs, judged on its state now rather than on the re-check's read. */
  ghost predicate NeededNow(content: Content, now: int, g: Registry, m: Manifest)
    requires m.repository in g && g[m.repository].Repository?
  {
    Needed(content, View(g[m.repository].rows, g[m.repository].times), now, m.digest)
  }

  /** A safe delete takes something needed at its instant exactly when a manifest pushed again since the
      re-check, and so young again, leads to it: the state a DELETE names does not cover times. */
  lemma OnlyRepushesAreMissed(content: Content, now: int, g: Registry, m: Manifest, v: View)
    requires SafeDelete(content, now, g, m, v)
    ensures var w := View(g[m.repository].rows, g[m.repository].times);
      NeededNow(content, now, g, m) <==>
      exists p :: Walk(content, w.rows, p) && Young(w, now, p[0]) && !Young(v, now, p[0]) && p[|p| - 1] == m.digest
  {
    var w := View(g[m.repository].rows, g[m.repository].times);
    if NeededNow(content, now, g, m) {
      var p :| Walk(content, w.rows, p) && Root(w, now, p[0]) && p[|p| - 1] == m.digest;
      assert Walk(content, v.rows, p);
      assert !Root(v, now, p[0]);
    }
    if p :| Walk(content, w.rows, p) && Young(w, now, p[0]) && !Young(v, now, p[0]) && p[|p| - 1] == m.digest {
      assert Root(w, now, p[0]);
    }
  }

  /** The registry after m is pushed again by digest: its time moves, its rows do not. */
  function Repushed(g: Registry, m: Manifest, touched: int): (g': Registry)
    requires m.repository in g && g[m.repository].Repository?
  {
    var repo := g[m.repository];
    g[m.repository := Repository(PutUntagged(repo.rows, m.digest, false), repo.times[m.digest := touched])]
  }

  /** It does happen to every planned manifest no index names: pushed again after the re-check it is young,
      the rows are as they were, and the DELETE goes through. */
  lemma RepushIsMissed(content: Content, now: int, g: Registry, m: Manifest, touched: int)
    requires Ready(content, now, g, m) && !NamedByIndex(content, g[m.repository].rows, m.digest)
    requires now - touched < PRUNE_GRACE
    ensures var v, pushed := View(g[m.repository].rows, g[m.repository].times), Repushed(g, m, touched);
      && SafeDelete(content, now, pushed, m, v)
      && Serve(content, pushed, m, v.rows) == Accepted
      && NeededNow(content, now, pushed, m)
  {
    hide Needed;
    var v, pushed := View(g[m.repository].rows, g[m.repository].times), Repushed(g, m, touched);
    DoomedHeld(content, v, now);
    RootNeeded(content, View(pushed[m.repository].rows, pushed[m.repository].times), now, m.digest);
  }

  /** For one, a lone untagged manifest two hours old. */
  lemma LoneManifestRepushed(content: Content, now: int)
    ensures var m, v := Manifest("app", "a"), View([Row("a", false, "")], map["a" := now - 2 * PRUNE_GRACE]);
      var g: Registry := map["app" := Repository(v.rows, v.times)];
      Serve(content, Repushed(g, m, now), m, v.rows) == Accepted && NeededNow(content, now, Repushed(g, m, now), m)
  {
    var m, v := Manifest("app", "a"), View([Row("a", false, "")], map["a" := now - 2 * PRUNE_GRACE]);
    var g: Registry := map["app" := Repository(v.rows, v.times)];
    forall p: seq<Digest> | Walk(content, v.rows, p) ensures !Root(v, now, p[0]) {
      assert p[0] in Held(v.rows);
    }
    assert v.rows[0] in v.rows;
    RepushIsMissed(content, now, g, m, now);
  }
}
