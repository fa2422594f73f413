/** The reports a listing feeds: the sorted table of `image ls`, and the ndjson stream written as it runs. */
module ImageReport {
  import opened Wrappers
  import opened Ordering
  import opened RegistryListing
  import opened ListingSafety
  import opened ListingRuns

  /** A tag's image joined against the nodes that cache it and the Pods that use it. */
  datatype ImageRow = ImageRow(repository: string, tag: string, digest: string, cachedOn: seq<string>, pods: nat)

  /** The join; the nodes and the Pods are read once, before any row is built. */
  type Join = Image -> ImageRow

  /** A row carries its image's names. */
  ghost predicate Names(join: Join) {
    forall img :: join(img).repository == img.repository && join(img).tag == img.tag
  }

  /** By repository, then by tag. */
  predicate RowBefore(a: ImageRow, b: ImageRow) {
    Before(a.repository, b.repository) || (a.repository == b.repository && Before(a.tag, b.tag))
  }

  lemma RowBeforeOrder(a: ImageRow, b: ImageRow, c: ImageRow)
    ensures !RowBefore(a, a)
    ensures RowBefore(a, b) && RowBefore(b, c) ==> RowBefore(a, c)
    ensures RowBefore(a, b) || RowBefore(b, a) || (a.repository == b.repository && a.tag == b.tag)
  {
    hide Before;
    BeforeIrreflexive(a.repository);
    BeforeIrreflexive(a.tag);
    BeforeTotal(a.repository, b.repository);
    BeforeTotal(a.tag, b.tag);
    if Before(a.repository, b.repository) && Before(b.repository, c.repository) {
      BeforeTransitive(a.repository, b.repository, c.repository);
    }
    if Before(a.tag, b.tag) && Before(b.tag, c.tag) {
      BeforeTransitive(a.tag, b.tag, c.tag);
    }
  }

  ghost predicate Arranged(rows: seq<ImageRow>) {
    forall i, j :: 0 <= i < j < |rows| ==> !RowBefore(rows[j], rows[i])
  }

  function Joined(join: Join, images: seq<Image>): (rows: seq<ImageRow>)
    ensures |rows| == |images|
  {
    seq(|images|, i requires 0 <= i < |images| => join(images[i]))
  }

  /** A report of images: their rows, each once, in order. */
  ghost predicate ReportOf(join: Join, images: seq<Image>, rows: seq<ImageRow>) {
    multiset(rows) == multiset(Joined(join, images)) && Arranged(rows)
  }

  // ----- building the report -----

  function InsertRow(rows: seq<ImageRow>, r: ImageRow): (s: seq<ImageRow>)
    ensures multiset(s) == multiset(rows) + multiset{r}
  {
    if rows == [] || RowBefore(r, rows[0]) then [r] + rows
    else
      assert rows == [rows[0]] + rows[1..];
      [rows[0]] + InsertRow(rows[1..], r)
  }

  lemma {:induction false} InsertRowArranged(rows: seq<ImageRow>, r: ImageRow)
    requires Arranged(rows)
    ensures Arranged(InsertRow(rows, r))
  {
    hide RowBefore;
    if rows == [] {
    } else if RowBefore(r, rows[0]) {
      forall j | 0 <= j < |rows| ensures !RowBefore(rows[j], r) {
        RowBeforeOrder(rows[j], r, rows[0]);
        RowBeforeOrder(rows[j], rows[0], r);
        assert j > 0 ==> !RowBefore(rows[j], rows[0]);
      }
    } else {
      var rest := InsertRow(rows[1..], r);
      InsertRowArranged(rows[1..], r);
      forall j | 0 <= j < |rest| ensures !RowBefore(rest[j], rows[0]) {
        assert rest[j] in multiset(rest);
        assert rest[j] == r || rest[j] in rows[1..];
      }
    }
  }

  /** buildImageList: a row for each image, then the sort. */
  method BuildImageList(join: Join, images: seq<Image>) returns (rows: seq<ImageRow>)
    ensures ReportOf(join, images, rows)
  {
    hide RowBefore, InsertRow;
    rows := [];
    for i := 0 to |images|
      invariant multiset(rows) == multiset(Joined(join, images[..i])) && Arranged(rows)
    {
      InsertRowArranged(rows, join(images[i]));
      rows := InsertRow(rows, join(images[i]));
      assert Joined(join, images[..i + 1]) == Joined(join, images[..i]) + [join(images[i])];
    }
    assert images[..|images|] == images;
  }

  // ----- one report, whatever the schedule -----

  /** Rows with the same names are the same row. */
  ghost predicate NamesDetermine(rows: seq<ImageRow>) {
    forall a, b :: a in rows && b in rows && a.repository == b.repository && a.tag == b.tag ==> a == b
  }

  lemma FirstRowsAgree(a: seq<ImageRow>, b: seq<ImageRow>)
    requires Arranged(a) && Arranged(b) && multiset(a) == multiset(b) && NamesDetermine(a) && a != [] && b != []
    ensures a[0] == b[0]
  {
    hide RowBefore;
    assert a[0] in multiset(b) && b[0] in multiset(a);
    var i :| 0 <= i < |b| && b[i] == a[0];
    var j :| 0 <= j < |a| && a[j] == b[0];
    RowBeforeOrder(a[0], b[0], a[0]);
  }

  lemma RestArranged(a: seq<ImageRow>)
    requires Arranged(a) && NamesDetermine(a) && a != []
    ensures Arranged(a[1..]) && NamesDetermine(a[1..])
  {
    hide RowBefore;
  }

  /** An arranged list whose names determine its rows is determined by which rows it holds. */
  lemma {:induction false} ArrangedIsUnique(a: seq<ImageRow>, b: seq<ImageRow>)
    requires Arranged(a) && Arranged(b) && multiset(a) == multiset(b) && NamesDetermine(a) && NamesDetermine(b)
    ensures a == b
  {
    hide Arranged, NamesDetermine;
    SameLength(a, b);
    if a != [] {
      FirstRowsAgree(a, b);
      RestArranged(a);
      RestArranged(b);
      SameRest(a, b, 0);
      assert b[..0] + b[1..] == b[1..];
      ArrangedIsUnique(a[1..], b[1..]);
      assert a == [a[0]] + a[1..] && b == [b[0]] + b[1..];
    }
  }

  lemma JoinedRemoved(join: Join, s: seq<Image>, i: nat)
    requires i < |s|
    ensures multiset(Joined(join, s)) == multiset(Joined(join, s[..i] + s[i + 1..])) + multiset{join(s[i])}
  {
    var rows := Joined(join, s);
    Removed(rows, i);
    assert Joined(join, s[..i] + s[i + 1..]) == rows[..i] + rows[i + 1..];
  }

  /** The rows of a permutation are a permutation of the rows. */
  lemma {:induction false} JoinedPermutes(join: Join, a: seq<Image>, b: seq<Image>)
    requires multiset(a) == multiset(b)
    ensures multiset(Joined(join, a)) == multiset(Joined(join, b))
  {
    hide Joined;
    SameLength(a, b);
    if a == [] {
      assert b == [];
    } else {
      assert a[0] in multiset(b);
      var i :| 0 <= i < |b| && b[i] == a[0];
      SameRest(a, b, i);
      JoinedPermutes(join, a[1..], b[..i] + b[i + 1..]);
      assert a[..0] + a[1..] == a[1..];
      JoinedRemoved(join, a, 0);
      JoinedRemoved(join, b, i);
    }
  }

  /** A registry answers for a tag with an image of that name. */
  ghost predicate NamesItsImages(world: World) {
    forall repo, tag :: world.image(repo, tag).Some? ==>
      world.image(repo, tag).value.repository == repo && world.image(repo, tag).value.tag == tag
  }

  lemma {:induction false} TagImagesNamed(world: World, repo: string, tags: seq<string>, x: Image)
    requires NamesItsImages(world) && x in TagImages(world, repo, tags)
    ensures world.image(x.repository, x.tag) == Some(x)
  {
    var n := |tags| - 1;
    if x in TagImages(world, repo, tags[..n]) {
      TagImagesNamed(world, repo, tags[..n], x);
    }
  }

  lemma {:induction false} AllImagesNamed(world: World, repos: seq<string>, x: Image)
    requires NamesItsImages(world) && x in AllImages(world, repos)
    ensures world.image(x.repository, x.tag) == Some(x)
  {
    hide TagImages, NamesItsImages;
    var n := |repos| - 1;
    if x in AllImages(world, repos[..n]) {
      AllImagesNamed(world, repos[..n], x);
    } else {
      TagImagesNamed(world, repos[n], Listed(world.tags(repos[n])), x);
    }
  }

  /** The schedule ends without an error. */
  ghost predicate Succeeds(world: World, run: seq<Action>) {
    && Possible(world, Init(world), run)
    && Finished(Run(world, Init(world), run))
    && Run(world, Init(world), run).firstErr.None?
  }

  ghost function ImagesOf(world: World, run: seq<Action>): (r: seq<Image>)
    requires Succeeds(world, run)
  {
    Run(world, Init(world), run).images
  }

  /** Any two successful schedules over the same registry give the same report. */
  lemma ReportIgnoresTheSchedule(world: World, join: Join, run1: seq<Action>, run2: seq<Action>, rows1: seq<ImageRow>, rows2: seq<ImageRow>)
    requires NamesItsImages(world) && Names(join) && Succeeds(world, run1) && Succeeds(world, run2)
    requires ReportOf(join, ImagesOf(world, run1), rows1) && ReportOf(join, ImagesOf(world, run2), rows2)
    ensures rows1 == rows2
  {
    SuccessIsComplete(world, run1);
    SuccessIsComplete(world, run2);
    JoinedPermutes(join, ImagesOf(world, run1), ImagesOf(world, run2));
    RowsAreNamed(world, join, ImagesOf(world, run1), rows1);
    RowsAreNamed(world, join, ImagesOf(world, run2), rows2);
    hide Succeeds;
    ArrangedIsUnique(rows1, rows2);
  }

  lemma RowsAreNamed(world: World, join: Join, images: seq<Image>, rows: seq<ImageRow>)
    requires NamesItsImages(world) && Names(join) && ReportOf(join, images, rows)
    requires multiset(images) == AllImages(world, world.repos)
    ensures NamesDetermine(rows)
  {
    hide AllImages, Arranged, NamesItsImages;
    forall a, b | a in rows && b in rows && a.repository == b.repository && a.tag == b.tag ensures a == b {
      assert a in multiset(rows) && b in multiset(rows);
      var i :| 0 <= i < |images| && join(images[i]) == a;
      var j :| 0 <= j < |images| && join(images[j]) == b;
      assert images[i] in multiset(images) && images[j] in multiset(images);
      AllImagesNamed(world, world.repos, images[i]);
      AllImagesNamed(world, world.repos, images[j]);
    }
  }
}
