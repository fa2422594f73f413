/** `image ls -o ndjson`: the listing's hooks written out as they run. */
module ImageStream {
  import opened Wrappers
  import opened RegistryListing
  import opened ListingSafety
  import opened ListingRuns
  import opened ImageReport

  datatype Line = StartLine(reachable: bool) | ProgressLine(progress: Progress) | ImageLine(row: ImageRow)
                | EndLine(images: nat) | ErrorLine(error: Error)

  /** How a listing came out. */
  datatype Outcome = Completed(progress: Progress) | Broke(error: Error)

  /** The image lines of a stream, in order. */
  function Rows(lines: seq<Line>): (r: seq<ImageRow>) {
    if lines == [] then [] else
      var last := lines[|lines| - 1];
      Rows(lines[..|lines| - 1]) + if last.ImageLine? then [last.row] else []
  }

  /** The last progress line of a stream. */
  function LastProgress(lines: seq<Line>): (p: Option<Progress>) {
    if lines == [] then None
    else if lines[|lines| - 1].ProgressLine? then Some(lines[|lines| - 1].progress)
    else LastProgress(lines[..|lines| - 1])
  }

  predicate Unended(lines: seq<Line>) {
    forall i :: 0 <= i < |lines| ==> !lines[i].EndLine?
  }

  lemma OneMoreLine(lines: seq<Line>, line: Line)
    ensures Rows(lines + [line]) == Rows(lines) + if line.ImageLine? then [line.row] else []
    ensures LastProgress(lines + [line]) == if line.ProgressLine? then Some(line.progress) else LastProgress(lines)
  {
    assert (lines + [line])[..|lines|] == lines;
  }

  // ----- the lines a listing means -----

  /** The lines of one hook: a progress line for a repository; for a tag its image line if it still has an
      image, and a progress line if one is due. */
  function LinesOf(join: Join, h: Hook, due: bool): (r: seq<Line>) {
    match h
    case RepositoryRead(p) => [ProgressLine(p)]
    case TagRead(p, image) =>
      (if image.Some? then [ImageLine(join(image.value))] else []) + if due then [ProgressLine(p)] else []
  }

  /** The lines of a listing's hooks, in the order it calls them; due says after which a progress line is due. */
  function Observed(join: Join, due: nat -> bool, hooks: seq<Hook>): (r: seq<Line>) {
    if hooks == [] then [] else
      var n := |hooks| - 1;
      Observed(join, due, hooks[..n]) + LinesOf(join, hooks[n], due(n))
  }

  /** Up to the listing's end: the start line, the first progress line, and the hooks' lines. */
  function Begun(join: Join, due: nat -> bool, repos: nat, hooks: seq<Hook>): (r: seq<Line>) {
    [StartLine(true), ProgressLine(Progress(repos, 0, 0, 0))] + Observed(join, due, hooks)
  }

  /** All the lines of a stream whose writes succeed. */
  function Meant(join: Join, due: nat -> bool, reachable: bool, podsListed: bool, repos: nat, hooks: seq<Hook>, outcome: Outcome): (r: seq<Line>) {
    if !reachable then [StartLine(false), EndLine(0)]
    else if !podsListed then [StartLine(true), ErrorLine("list pods")]
    else
      var begun := Begun(join, due, repos, hooks);
      match outcome
      case Broke(e) => begun + [ErrorLine(e)]
      case Completed(p) =>
        begun + (if LastProgress(begun) == Some(p) then [] else [ProgressLine(p)]) + [EndLine(|Shown(hooks)|)]
  }

  lemma {:induction false} RowsConcat(a: seq<Line>, b: seq<Line>)
    ensures Rows(a + b) == Rows(a) + Rows(b)
  {
    if b == [] {
      assert a + b == a;
    } else {
      RowsConcat(a, b[..|b| - 1]);
      assert (a + b)[..|a + b| - 1] == a + b[..|b| - 1];
    }
  }

  lemma {:induction false} ObservedRows(join: Join, due: nat -> bool, hooks: seq<Hook>)
    ensures Rows(Observed(join, due, hooks)) == Joined(join, Shown(hooks)) && Unended(Observed(join, due, hooks))
  {
    hide Rows, LinesOf;
    NoRows();
    if hooks != [] {
      var n := |hooks| - 1;
      ObservedRows(join, due, hooks[..n]);
      JoinedMore(join, hooks);
      hide Joined, Shown;
      RowsConcat(Observed(join, due, hooks[..n]), LinesOf(join, hooks[n], due(n)));
      HookRows(join, hooks[n], due(n));
    }
  }

  lemma OneLine(line: Line)
    ensures Rows([line]) == if line.ImageLine? then [line.row] else []
  {
    OneMoreLine([], line);
    assert [] + [line] == [line];
  }

  lemma HookRows(join: Join, h: Hook, due: bool)
    ensures Rows(LinesOf(join, h, due)) == if h.TagRead? && h.image.Some? then [join(h.image.value)] else []
    ensures Unended(LinesOf(join, h, due))
  {
    hide Rows;
    OneLine(ProgressLine(h.progress));
    if h.TagRead? {
      var image := if h.image.Some? then [ImageLine(join(h.image.value))] else [];
      var progress := if due then [ProgressLine(h.progress)] else [];
      if h.image.Some? {
        OneLine(ImageLine(join(h.image.value)));
      }
      RowsConcat(image, progress);
      NoRows();
    }
  }

  lemma JoinedMore(join: Join, hooks: seq<Hook>)
    requires hooks != []
    ensures var h := hooks[|hooks| - 1];
      Joined(join, Shown(hooks)) == Joined(join, Shown(hooks[..|hooks| - 1])) + if h.TagRead? && h.image.Some? then [join(h.image.value)] else []
  {
  }

  lemma NoRows()
    ensures Rows([]) == []
  {
  }

  /** What a completed stream's lines say: they open with the start line, end in the one end line, which
      counts the image lines; those are the images shown, in order; and the last progress line is the final
      count. */
  lemma MeantLines(join: Join, due: nat -> bool, repos: nat, hooks: seq<Hook>, p: Progress)
    ensures var lines := Meant(join, due, true, true, repos, hooks, Completed(p));
      && |lines| > 1 && lines[0] == StartLine(true) && lines[1] == ProgressLine(Progress(repos, 0, 0, 0))
      && Rows(lines) == Joined(join, Shown(hooks))
      && lines[|lines| - 1] == EndLine(|Rows(lines)|) && Unended(lines[..|lines| - 1])
      && LastProgress(lines) == Some(p)
  {
    hide Observed, Rows, LastProgress, Shown, Joined;
    var begun := Begun(join, due, repos, hooks);
    BegunFirst(join, due, repos, hooks, Completed(p));
    BegunRows(join, due, repos, hooks);
    var before := begun + if LastProgress(begun) == Some(p) then [] else [ProgressLine(p)];
    OneMoreLine(begun, ProgressLine(p));
    assert begun + [] == begun;
    OneMoreLine(before, EndLine(|Shown(hooks)|));
    hide Begun;
    var lines := Meant(join, due, true, true, repos, hooks, Completed(p));
    assert lines == before + [EndLine(|Shown(hooks)|)] && lines[..|lines| - 1] == before;
  }

  lemma BegunRows(join: Join, due: nat -> bool, repos: nat, hooks: seq<Hook>)
    ensures Rows(Begun(join, due, repos, hooks)) == Joined(join, Shown(hooks))
  {
    hide Rows, Joined, Shown, Observed;
    var start, counted := StartLine(true), ProgressLine(Progress(repos, 0, 0, 0));
    OneLine(start);
    OneMoreLine([start], counted);
    assert [start] + [counted] == [start, counted];
    ObservedRows(join, due, hooks);
    RowsConcat([start, counted], Observed(join, due, hooks));
  }

  /** The first k of the lines meant, and perhaps an error line for the write that failed. */
  ghost predicate CutShort(lines: seq<Line>, meant: seq<Line>) {
    exists k :: 0 <= k <= |meant| && (lines == meant[..k] || lines == meant[..k] + [ErrorLine("write")])
  }

  lemma CutHere(lines: seq<Line>, meant: seq<Line>)
    requires lines <= meant
    ensures CutShort(lines, meant) && CutShort(lines + [ErrorLine("write")], meant)
  {
    assert lines == meant[..|lines|];
  }

  class ImageStream {
    const join: Join
    /** Whether the n-th write to the output fails. */
    const broken: nat -> bool
    /** Whether the progress interval has passed by the n-th hook. */
    const due: nat -> bool
    var lines: seq<Line>
    var writes: nat
    var sent: Progress
    var images: nat

    constructor (join: Join, broken: nat -> bool, due: nat -> bool)
      ensures this.join == join && this.broken == broken && this.due == due && lines == [] && writes == 0 && images == 0
    {
      this.join, this.broken, this.due := join, broken, due;
      lines, writes, sent, images := [], 0, Progress(0, 0, 0, 0), 0;
    }

    method Write(line: Line) returns (ok: bool)
      modifies this`lines, this`writes
      ensures ok == !broken(old(writes)) && writes == old(writes) + 1
      ensures lines == if ok then old(lines) + [line] else old(lines)
    {
      ok := !broken(writes);
      writes := writes + 1;
      if ok {
        lines := lines + [line];
      }
    }

    method SendProgress(p: Progress) returns (ok: bool)
      modifies this`lines, this`writes, this`sent
      ensures ok == !broken(old(writes)) && sent == p && writes == old(writes) + 1
      ensures lines == if ok then old(lines) + [ProgressLine(p)] else old(lines)
    {
      sent := p;
      ok := Write(ProgressLine(p));
    }

    /** The n-th hook: its lines, in order, until a write fails; the image counted, and the progress sent
        remembered. */
    method OnHook(h: Hook, n: nat) returns (ok: bool)
      modifies this
      ensures ok ==> lines == old(lines) + LinesOf(join, h, due(n))
      ensures !ok ==> old(lines) <= lines <= old(lines) + LinesOf(join, h, due(n)) && exists w :: old(writes) <= w < writes && broken(w)
      ensures images == old(images) + if h.TagRead? && h.image.Some? then 1 else 0
      ensures ok ==> LastProgress(old(lines)) == Some(old(sent)) ==> LastProgress(lines) == Some(sent)
      ensures writes >= old(writes)
    {
      hide Rows, LastProgress;
      ok := true;
      match h {
        case RepositoryRead(p) =>
          OneMoreLine(lines, ProgressLine(p));
          ok := SendProgress(p);
        case TagRead(p, image) =>
          if image.Some? {
            images := images + 1;
            OneMoreLine(lines, ImageLine(join(image.value)));
            ok := Write(ImageLine(join(image.value)));
          }
          if ok && due(n) {
            OneMoreLine(lines, ProgressLine(p));
            ok := SendProgress(p);
          }
      }
    }

    /** The hooks of one listing, in the order it calls them, until one fails. */
    method Observe(hooks: seq<Hook>) returns (ok: bool)
      requires images == 0 && LastProgress(lines) == Some(sent)
      modifies this
      ensures ok ==> lines == old(lines) + Observed(join, due, hooks) && images == |Shown(hooks)| && LastProgress(lines) == Some(sent)
      ensures old(lines) <= lines <= old(lines) + Observed(join, due, hooks)
      ensures !ok ==> exists w :: old(writes) <= w < writes && broken(w)
      ensures writes >= old(writes)
    {
      hide LastProgress, LinesOf;
      for i := 0 to |hooks|
        invariant lines == old(lines) + Observed(join, due, hooks[..i]) && images == |Shown(hooks[..i])|
        invariant LastProgress(lines) == Some(sent) && writes >= old(writes)
      {
        assert hooks[..i + 1][..i] == hooks[..i];
        ObservedPrefix(join, due, hooks, i);
        ok := OnHook(hooks[i], i);
        if !ok {
          return;
        }
      }
      assert hooks[..|hooks|] == hooks;
      ok := true;
    }

    /** streamImageList; podsListed is whether the Pods could be read, and the listing calls hooks and comes out
        as outcome. When every write succeeds the lines are exactly those meant, and it succeeds exactly if the
        registry was unreachable or the listing completed; a failed write cuts them short. */
    method Stream(reachable: bool, podsListed: bool, repos: nat, hooks: seq<Hook>, outcome: Outcome) returns (ok: bool)
      requires lines == [] && images == 0 && writes == 0
      modifies this
      ensures ok ==> lines == Meant(join, due, reachable, podsListed, repos, hooks, outcome) && (!reachable || (podsListed && outcome.Completed?))
      ensures !ok ==> CutShort(lines, Meant(join, due, reachable, podsListed, repos, hooks, outcome)) && Unended(lines)
      ensures (forall w :: !broken(w)) ==> lines == Meant(join, due, reachable, podsListed, repos, hooks, outcome)
      ensures (forall w :: !broken(w)) ==> (ok <==> !reachable || (podsListed && outcome.Completed?))
    {
      hide Observed, Shown, LastProgress;
      ghost var meant := Meant(join, due, reachable, podsListed, repos, hooks, outcome);
      ok := Write(StartLine(reachable));
      if !ok {
        CutHere(lines, meant);
        return;
      }
      if !reachable {
        ok := Write(EndLine(0));
        CutHere(lines, meant);
        return;
      }
      if !podsListed {
        var _ := Write(ErrorLine("list pods"));
        CutHere(lines, meant);
        return false;
      }
      ok := StreamListing(repos, hooks, outcome);
    }

    /** The stream from the first progress line on. */
    method StreamListing(repos: nat, hooks: seq<Hook>, outcome: Outcome) returns (ok: bool)
      requires lines == [StartLine(true)] && images == 0
      modifies this
      ensures ok ==> lines == Meant(join, due, true, true, repos, hooks, outcome) && outcome.Completed?
      ensures !ok ==> CutShort(lines, Meant(join, due, true, true, repos, hooks, outcome)) && Unended(lines)
      ensures (forall w :: !broken(w)) ==> lines == Meant(join, due, true, true, repos, hooks, outcome) && (ok <==> outcome.Completed?)
    {
      hide Observed, LastProgress, Shown, Rows, Meant, CutShort, Joined;
      ghost var meant, begun := Meant(join, due, true, true, repos, hooks, outcome), Begun(join, due, repos, hooks);
      BegunFirst(join, due, repos, hooks, outcome);
      var counted := Progress(repos, 0, 0, 0);
      OneMoreLine(lines, ProgressLine(counted));
      assert lines + [ProgressLine(counted)] + Observed(join, due, hooks) == begun;
      ok := SendProgress(counted);
      if !ok {
        CutHere(lines, meant);
        return;
      }
      ok := Observe(hooks);
      if !ok {
        assert Unended(lines) by {
          assert lines <= begun;
        }
        CutHere(lines, meant);
        var _ := Write(ErrorLine("write"));
        return;
      }
      ok := EndStream(repos, hooks, outcome);
    }

    /** The last lines: the error of a listing that failed, else the final count and the end line. */
    method EndStream(repos: nat, hooks: seq<Hook>, outcome: Outcome) returns (ok: bool)
      requires lines == Begun(join, due, repos, hooks) && images == |Shown(hooks)| && LastProgress(lines) == Some(sent)
      requires Unended(lines)
      modifies this
      ensures ok ==> lines == Meant(join, due, true, true, repos, hooks, outcome) && outcome.Completed?
      ensures !ok ==> CutShort(lines, Meant(join, due, true, true, repos, hooks, outcome)) && Unended(lines)
      ensures (forall w :: !broken(w)) ==> lines == Meant(join, due, true, true, repos, hooks, outcome) && (ok <==> outcome.Completed?)
    {
      hide Begun, LastProgress, Shown, Rows, CutShort;
      ghost var meant := Meant(join, due, true, true, repos, hooks, outcome);
      if outcome.Broke? {
        var _ := Write(ErrorLine(outcome.error));
        CutHere(lines, meant);
        return false;
      }
      if outcome.progress != sent {
        ok := SendProgress(outcome.progress);
        if !ok {
          CutHere(lines, meant);
          return;
        }
      }
      CutHere(lines, meant);
      ok := Write(EndLine(images));
    }
  }

  lemma BegunFirst(join: Join, due: nat -> bool, repos: nat, hooks: seq<Hook>, outcome: Outcome)
    ensures Begun(join, due, repos, hooks) <= Meant(join, due, true, true, repos, hooks, outcome)
    ensures Unended(Begun(join, due, repos, hooks))
  {
    ObservedRows(join, due, hooks);
    hide Observed, Rows, LastProgress, Shown;
  }

  lemma {:induction false} ObservedPrefix(join: Join, due: nat -> bool, hooks: seq<Hook>, i: nat)
    requires i < |hooks|
    ensures Observed(join, due, hooks[..i + 1]) == Observed(join, due, hooks[..i]) + LinesOf(join, hooks[i], due(i))
    ensures Observed(join, due, hooks[..i + 1]) <= Observed(join, due, hooks)
    decreases |hooks| - i
  {
    assert hooks[..i + 1][..i] == hooks[..i];
    if i + 1 < |hooks| {
      ObservedPrefix(join, due, hooks, i + 1);
    } else {
      assert hooks[..i + 1] == hooks;
    }
  }

  /** For a successful listing the stream's end line counts its image lines, they are the registry's
      images, and the last progress line is the complete count. */
  lemma StreamMatchesTheListing(world: World, join: Join, due: nat -> bool, run: seq<Action>)
    requires Succeeds(world, run)
    ensures var s := Run(world, Init(world), run);
      var lines, tags := Meant(join, due, true, true, |world.repos|, s.hooks, Completed(s.progress)), AllTags(world, world.repos);
      && |lines| > 0 && lines[|lines| - 1] == EndLine(|Rows(lines)|)
      && multiset(Rows(lines)) == multiset(Joined(join, ImagesOf(world, run)))
      && LastProgress(lines) == Some(Progress(|world.repos|, |world.repos|, tags, tags))
  {
    SuccessIsComplete(world, run);
    var s := Run(world, Init(world), run);
    MeantLines(join, due, |world.repos|, s.hooks, s.progress);
    hide Rows, LastProgress, AllTags, AllImages, Run, Meant;
  }
}
