/** The one-time migration of a node's images into the cluster registry: the journal, the decision for
    one reference with its conflict-rename rule, and the run over every reference. */
module ImageMigration {
  import opened Wrappers
  import opened Ordering

  /** The hex text of a manifest digest. */
  type Digest = s: string | |s| >= 12 witness "000000000000"

  /** A tag in the cluster registry. */
  datatype Target = Target(repository: string, tag: string)

  /** What the registry holds: a digest at each tag. */
  type Registry = map<Target, Digest>

  const INFIX := "-k3sm-migrated-"
  const MAX_TAG := 128
  const HEX := 12

  predicate HoldsPlace(reg: Registry, p: Option<Place>) {
    p.Some? && Holds(reg, p.value.target, p.value.digest)
  }

  predicate Holds(reg: Registry, t: Target, d: Digest) {
    t in reg && reg[t] == d
  }

  /** A tag that ends in -k3sm-migrated-<12 characters>. */
  predicate Suffixed(t: Target) {
    |t.tag| >= |INFIX| + HEX && t.tag[|t.tag| - HEX - |INFIX|..|t.tag| - HEX] == INFIX
  }

  /** The 12 characters after the infix. */
  function SuffixHex(t: Target): string
    requires Suffixed(t)
  {
    t.tag[|t.tag| - HEX..]
  }

  /** The tag a migrated image takes beside a tag held at another digest. */
  function Renamed(t: Target, d: Digest): (r: Target)
    ensures r.repository == t.repository
    ensures |r.tag| <= MAX_TAG
    ensures Suffixed(r) && SuffixHex(r) == d[..HEX]
    ensures r.tag[..|r.tag| - HEX - |INFIX|] <= t.tag
    ensures |r.tag| == if |t.tag| + |INFIX| + HEX <= MAX_TAG then |t.tag| + |INFIX| + HEX else MAX_TAG
  {
    var suffix := INFIX + d[..HEX];
    var room := MAX_TAG - |suffix|;
    var stem := if |t.tag| > room then t.tag[..room] else t.tag;
    var tag := stem + suffix;
    assert tag[|tag| - HEX - |INFIX|..|tag| - HEX] == INFIX;
    assert tag[|tag| - HEX..] == d[..HEX];
    Target(t.repository, tag)
  }

  // ----- the node store -----

  /** One (reference x platform) of the node store. */
  datatype Entry = Entry(reference: string, platform: string, digest: Digest, indexDigest: Option<Digest>)

  /** The entries of one reference. */
  type Group = g: seq<Entry> | |g| > 0 witness [Entry("", "", "000000000000", None)]

  /** A group's manifest digests, sorted: the identity of what the store holds for the reference. */
  function Sources(g: seq<Entry>): seq<Digest> {
    Sorted(Digests(g), (d: Digest) => d)
  }

  function Digests(g: seq<Entry>): seq<Digest> {
    if g == [] then [] else [g[0].digest] + Digests(g[1..])
  }

  function Platforms(g: seq<Entry>): seq<string> {
    if g == [] then [] else [g[0].platform] + Platforms(g[1..])
  }

  /** The digests of a group's entries, one each, in list order. */
  lemma {:induction false} DigestsAre(g: seq<Entry>)
    ensures Digests(g) == seq(|g|, i requires 0 <= i < |g| => g[i].digest)
  {
    if g != [] {
      DigestsAre(g[1..]);
    }
  }

  lemma {:induction false} PlatformsAre(g: seq<Entry>)
    ensures Platforms(g) == seq(|g|, i requires 0 <= i < |g| => g[i].platform)
  {
    if g != [] {
      PlatformsAre(g[1..]);
    }
  }

  /** A group's sources are its entries' digests, every one as often as it occurs, in order; so two groups
      have the same sources if and only if they hold the same digests equally often. */
  lemma SourcesIdentify(g: seq<Entry>, h: seq<Entry>)
    ensures multiset(Sources(g)) == multiset(seq(|g|, i requires 0 <= i < |g| => g[i].digest))
    ensures Ordered(Sources(g), (d: Digest) => d)
    ensures Sources(g) == Sources(h) <==> multiset(seq(|g|, i requires 0 <= i < |g| => g[i].digest)) == multiset(seq(|h|, i requires 0 <= i < |h| => h[i].digest))
  {
    DigestsAre(g);
    DigestsAre(h);
    var key := (d: Digest) => d;
    SortedIsOrdered(Digests(g), key);
    SortedIsOrdered(Digests(h), key);
    if multiset(Digests(g)) == multiset(Digests(h)) {
      OrderedIsUnique(Sources(g), Sources(h), key);
    }
  }

  // ----- grouping -----

  const BY_PLATFORM := (e: Entry) => e.platform
  const ITSELF := (s: string) => s

  /** The entries of reference r, in list order. */
  function ForReference(entries: seq<Entry>, r: string): (s: seq<Entry>)
    ensures forall e :: e in s ==> e in entries && e.reference == r
    ensures (exists e :: e in entries && e.reference == r) ==> s != []
  {
    if entries == [] then []
    else
      var last := entries[|entries| - 1];
      ForReference(entries[..|entries| - 1], r) + if last.reference == r then [last] else []
  }

  lemma ForReferenceNext(entries: seq<Entry>, i: nat, r: string)
    requires i < |entries|
    ensures ForReference(entries[..i + 1], r) == ForReference(entries[..i], r) + if entries[i].reference == r then [entries[i]] else []
  {
    assert entries[..i + 1][..i] == entries[..i];
  }

  /** The entries under their references. */
  method ByReference(entries: seq<Entry>) returns (groups: map<string, seq<Entry>>)
    ensures forall e :: e in entries ==> e.reference in groups
    ensures forall r :: r in groups ==> groups[r] == ForReference(entries, r) && groups[r] != []
  {
    hide ForReference;
    groups := map[];
    for i := 0 to |entries|
      invariant forall e :: e in entries[..i] ==> e.reference in groups
      invariant forall r :: r in groups ==> groups[r] == ForReference(entries[..i], r) && groups[r] != []
    {
      var e := entries[i];
      assert entries[..i + 1] == entries[..i] + [e];
      forall r | r in groups || r == e.reference
        ensures ForReference(entries[..i + 1], r) == ForReference(entries[..i], r) + if e.reference == r then [e] else []
      {
        ForReferenceNext(entries, i, r);
      }
      if e.reference !in groups {
        NoneForReference(entries[..i], e.reference);
      }
      groups := groups[e.reference := (if e.reference in groups then groups[e.reference] else []) + [e]];
    }
    assert entries[..|entries|] == entries;
  }

  /** The group is exactly its reference's entries, in the order of their platforms. */
  ghost predicate GroupOf(entries: seq<Entry>, g: Group) {
    Ordered(g, BY_PLATFORM) && multiset(g) == multiset(ForReference(entries, g[0].reference))
  }

  /** One reference's entries in the order of their platforms. */
  method SortGroup(entries: seq<Entry>, own: seq<Entry>, r: string) returns (g: Group)
    requires own != [] && own == ForReference(entries, r)
    ensures GroupOf(entries, g) && g[0].reference == r
  {
    SortedIsOrdered(own, BY_PLATFORM);
    g := Sorted(own, BY_PLATFORM);
    assert g[0] in multiset(own);
  }

  /** groupStoreImages: one group per reference of the store, in the order of the references, each with
      exactly that reference's entries, in the order of their platforms. */
  method GroupStoreImages(entries: seq<Entry>) returns (out: seq<Group>)
    ensures forall i, j :: 0 <= i < j < |out| ==> Before(out[i][0].reference, out[j][0].reference)
    ensures forall i :: 0 <= i < |out| ==> GroupOf(entries, out[i])
    ensures forall e :: e in entries ==> exists i :: 0 <= i < |out| && out[i][0].reference == e.reference
  {
    hide GroupOf, Before, ForReference;
    var groups := ByReference(entries);
    var refs := SortedKeys(groups.Keys);
    out := [];
    for i := 0 to |refs|
      invariant |out| == i && forall k :: 0 <= k < i ==> out[k][0].reference == refs[k]
      invariant forall k :: 0 <= k < i ==> GroupOf(entries, out[k])
    {
      assert refs[i] in refs;
      var g := SortGroup(entries, groups[refs[i]], refs[i]);
      out := out + [g];
    }
    forall e | e in entries ensures exists i :: 0 <= i < |out| && out[i][0].reference == e.reference {
      assert e.reference in refs;
      var k :| 0 <= k < |refs| && refs[k] == e.reference;
      assert out[k][0].reference == e.reference;
    }
  }

  lemma NoneForReference(entries: seq<Entry>, r: string)
    requires forall e :: e in entries ==> e.reference != r
    ensures ForReference(entries, r) == []
  {
  }

  /** The keys of a map in order. */
  method SortedKeys(keys: set<string>) returns (refs: seq<string>)
    ensures Increasing(refs, ITSELF)
    ensures forall r :: r in refs <==> r in keys
  {
    refs := [];
    var rest := keys;
    while rest != {}
      invariant rest <= keys && Increasing(refs, ITSELF)
      invariant forall r :: r in refs <==> r in keys && r !in rest
      decreases rest
    {
      var r :| r in rest;
      InsertIncreasing(refs, r, ITSELF);
      var next := Insert(refs, r, ITSELF);
      forall x ensures x in next <==> x == r || x in refs {
        assert x in next <==> x in multiset(next);
        assert x in refs <==> x in multiset(refs);
      }
      refs := next;
      rest := rest - {r};
    }
  }

  /** The answers a run gets from outside, fixed: which references name the cluster registry, what each
      upstream serves, the registry name of a reference, and what a group exports to. */
  datatype World = World(
    isLocal: string -> bool,
    serves: (string, Digest) -> bool,
    target: string -> Option<Target>,
    exported: seq<Entry> -> Option<Digest>)

  predicate Cached(w: World, g: seq<Entry>) {
    forall e :: e in g ==> w.serves(e.reference, if e.indexDigest.Some? then e.indexDigest.value else e.digest)
  }

  // ----- the journal -----

  datatype Verdict = Migrated | Present | RenamedAside | CacheEntry | Unexportable

  predicate Done(v: Verdict) {
    v != Unexportable
  }

  predicate InRegistry(v: Verdict) {
    v == Migrated || v == Present || v == RenamedAside
  }

  /** Where the registry holds an image, and at which digest. */
  datatype Place = Place(target: Target, digest: Digest)

  datatype Record = Record(
    reference: string,
    platforms: seq<string>,
    sources: seq<Digest>,
    verdict: Verdict,
    place: Option<Place>)

  const KEY := (r: Record) => r.reference

  function Lookup(images: seq<Record>, reference: string): (r: Option<Record>)
    ensures r.Some? ==> r.value in images && r.value.reference == reference
    ensures r.None? ==> forall x :: x in images ==> x.reference != reference
  {
    if images == [] then None
    else if images[0].reference == reference then Some(images[0])
    else Lookup(images[1..], reference)
  }

  /** The journal with r in place of, or beside, the records of other references. */
  function Put(images: seq<Record>, r: Record): seq<Record> {
    if Lookup(images, r.reference).Some? then Replaced(images, r) else Insert(images, r, KEY)
  }

  function Replaced(images: seq<Record>, r: Record): (s: seq<Record>)
    ensures |s| == |images|
  {
    if images == [] then []
    else if images[0].reference == r.reference then [r] + images[1..]
    else [images[0]] + Replaced(images[1..], r)
  }

  // ----- one reference -----

  /** What migrate decides: the record, and the push it makes first, if any. */
  datatype Decision = Decision(record: Record, push: Option<Place>)

  /** The journal already finished this reference, and the registry still holds what it says. */
  predicate Finished(prev: Option<Record>, reg: Registry, g: Group) {
    && prev.Some? && Done(prev.value.verdict) && prev.value.sources == Sources(g)
    && (InRegistry(prev.value.verdict) ==> HoldsPlace(reg, prev.value.place))
  }

  /** A record written for other digests never settles a reference, whatever else it says. */
  lemma OtherDigestsSettleNothing(r: Record, reg: Registry, g: Group, written: Group)
    requires r.sources == Sources(written)
    requires multiset(seq(|g|, i requires 0 <= i < |g| => g[i].digest)) != multiset(seq(|written|, i requires 0 <= i < |written| => written[i].digest))
    ensures !Finished(Some(r), reg, g)
  {
    hide Sources;
    SourcesIdentify(g, written);
  }

  function Outcome(g: Group, v: Verdict, place: Option<Place>): Record {
    Record(g[0].reference, Platforms(g), Sources(g), v, place)
  }

  /** The decision for a reference the journal does not settle. */
  function Decide(w: World, reg: Registry, g: Group): Decision {
    if !w.isLocal(g[0].reference) && Cached(w, g) then Decision(Outcome(g, CacheEntry, None), None)
    else
      match (w.target(g[0].reference), w.exported(g))
      case (None, _) => Decision(Outcome(g, Unexportable, None), None)
      case (_, None) => Decision(Outcome(g, Unexportable, None), None)
      case (Some(flat), Some(d)) =>
        if Holds(reg, flat, d) then Decision(Outcome(g, Present, Some(Place(flat, d))), None)
        else if flat in reg then
          var aside := Renamed(flat, d);
          Decision(Outcome(g, RenamedAside, Some(Place(aside, d))), if Holds(reg, aside, d) then None else Some(Place(aside, d)))
        else Decision(Outcome(g, Migrated, Some(Place(flat, d))), Some(Place(flat, d)))
  }

  function Migrate(w: World, images: seq<Record>, reg: Registry, g: Group): Decision {
    var prev := Lookup(images, g[0].reference);
    if Finished(prev, reg, g) then Decision(prev.value, None) else Decide(w, reg, g)
  }

  // ----- the run -----

  /** What survives a crash: the journal file and the registry. */
  datatype Durable = Durable(images: seq<Record>, registry: Registry)

  function Pushed(reg: Registry, push: Option<Place>): Registry {
    if push.Some? then reg[push.value.target := push.value.digest] else reg
  }

  /** The push of group g, its journal write not yet made. */
  function AfterPush(w: World, d: Durable, g: Group): Durable {
    d.(registry := Pushed(d.registry, Migrate(w, d.images, d.registry, g).push))
  }

  /** Group g carried out: its push, then its journal write. */
  function AfterGroup(w: World, d: Durable, g: Group): Durable {
    AfterPush(w, d, g).(images := Put(d.images, Migrate(w, d.images, d.registry, g).record))
  }

  function AfterGroups(w: World, d: Durable, groups: seq<Group>): Durable
    decreases |groups|
  {
    if groups == [] then d else AfterGroups(w, AfterGroup(w, d, groups[0]), groups[1..])
  }

  lemma {:induction false} OneMoreGroup(w: World, d: Durable, groups: seq<Group>, k: nat)
    requires k < |groups|
    ensures AfterGroups(w, d, groups[..k + 1]) == AfterGroup(w, AfterGroups(w, d, groups[..k]), groups[k])
    decreases k
  {
    hide Migrate, Put;
    if k == 0 {
      assert groups[..1][1..] == [] && groups[..0] == [];
    } else {
      assert groups[..k + 1][1..] == groups[1..][..k] && groups[..k][1..] == groups[1..][..k - 1];
      OneMoreGroup(w, AfterGroup(w, d, groups[0]), groups[1..], k - 1);
    }
  }

  lemma NoGroups(w: World, d: Durable, groups: seq<Group>)
    requires groups == []
    ensures AfterGroups(w, d, groups) == d
  {
  }

  /** A run stopped after `done` groups, or after the push of the next group and before its journal write. */
  datatype Crash = Crash(done: nat, pushed: bool)

  predicate CrashPoint(c: Crash, groups: seq<Group>) {
    c.done <= |groups| && (c.pushed ==> c.done < |groups|)
  }

  function AfterCrash(w: World, d: Durable, groups: seq<Group>, c: Crash): Durable
    requires CrashPoint(c, groups)
  {
    var mid := AfterGroups(w, d, groups[..c.done]);
    if c.pushed then AfterPush(w, mid, groups[c.done]) else mid
  }

  /** What goes wrong while a group is carried out: nothing; an error before its push has changed the
      registry; or one after, with its journal write not made. */
  datatype Fault = NoFault | BeforePush | BeforeJournal

  /** imageMigrator: the journal and the registry are updated in place, group by group. */
  class ImageMigrator {
    const world: World
    /** What goes wrong at each group. */
    const faults: nat -> Fault
    var images: seq<Record>
    var registry: Registry
    var complete: bool

    constructor (world: World, faults: nat -> Fault, images: seq<Record>, registry: Registry)
      ensures this.world == world && this.faults == faults && this.images == images && this.registry == registry
    {
      this.world, this.faults, this.images, this.registry, complete := world, faults, images, registry, false;
    }

    /** migrationJournal.put: replace the record of the reference, or append it and sort. */
    method PutRecord(r: Record)
      requires Increasing(images, KEY)
      modifies this`images
      ensures images == Put(old(images), r) && Increasing(images, KEY)
    {
      PutIncreasing(images, r);
      for i := 0 to |images|
        invariant images == old(images)
        invariant forall k :: 0 <= k < i ==> images[k].reference != r.reference
      {
        if images[i].reference == r.reference {
          ReplacedAt(images, r, i);
          images := images[i := r];
          return;
        }
      }
      AppendedSorts(images, r);
      images := Sorted(images + [r], KEY);
    }

    /** migrate: decide one reference, and push it when the registry does not hold it; or stop with an
        error and nothing pushed. */
    method MigrateOne(g: Group, fails: bool) returns (r: Option<Record>)
      modifies this`registry
      ensures fails ==> r == None && registry == old(registry)
      ensures !fails ==> r == Some(Migrate(world, images, old(registry), g).record)
      ensures !fails ==> registry == Pushed(old(registry), Migrate(world, images, old(registry), g).push)
    {
      if fails {
        return None;
      }
      var reference := g[0].reference;
      var prev := Lookup(images, reference);
      if prev.Some? && Done(prev.value.verdict) && prev.value.sources == Sources(g) {
        if !InRegistry(prev.value.verdict) || HoldsPlace(registry, prev.value.place) {
          return Some(prev.value);
        }
      }
      if !world.isLocal(reference) && Cached(world, g) {
        return Some(Outcome(g, CacheEntry, None));
      }
      var flat, digest := world.target(reference), world.exported(g);
      if flat.None? || digest.None? {
        return Some(Outcome(g, Unexportable, None));
      }
      var target, verdict := flat.value, Migrated;
      if target in registry {
        if registry[target] == digest.value {
          return Some(Outcome(g, Present, Some(Place(target, digest.value))));
        }
        target, verdict := Renamed(target, digest.value), RenamedAside;
      }
      if !Holds(registry, target, digest.value) {
        registry := registry[target := digest.value];
      }
      r := Some(Outcome(g, verdict, Some(Place(target, digest.value))));
    }

    /** run: every group in turn, each journalled before the next. It completes exactly when nothing goes
        wrong, with the whole run's journal and registry; otherwise it stops where the first fault is, in the
        state a crash there leaves. */
    method Run(groups: seq<Group>) returns (stop: Crash)
      requires Increasing(images, KEY)
      modifies this`images, this`registry, this`complete
      ensures Increasing(images, KEY) && CrashPoint(stop, groups)
      ensures complete <==> forall i :: 0 <= i < |groups| ==> faults(i) == NoFault
      ensures complete ==> Durable(images, registry) == AfterGroups(world, old(Durable(images, registry)), groups)
      ensures !complete ==> Durable(images, registry) == AfterCrash(world, old(Durable(images, registry)), groups, stop)
      ensures !complete ==> stop.done < |groups| && faults(stop.done) == if stop.pushed then BeforeJournal else BeforePush
    {
      hide Migrate, Put, AfterGroups, Increasing;
      complete := false;
      ghost var d := Durable(images, registry);
      NoGroups(world, d, groups[..0]);
      for i := 0 to |groups|
        invariant Increasing(images, KEY) && !complete && forall k :: 0 <= k < i ==> faults(k) == NoFault
        invariant Durable(images, registry) == AfterGroups(world, d, groups[..i])
      {
        OneMoreGroup(world, d, groups, i);
        var r := MigrateOne(groups[i], faults(i) == BeforePush);
        if r.None? {
          return Crash(i, false);
        }
        if faults(i) == BeforeJournal {
          return Crash(i, true);
        }
        PutRecord(r.value);
      }
      assert groups[..|groups|] == groups;
      complete, stop := true, Crash(|groups|, false);
    }
  }

  /** Replacing the first record of the reference is put's replacement. */
  lemma {:induction false} ReplacedAt(images: seq<Record>, r: Record, i: nat)
    requires i < |images| && images[i].reference == r.reference
    requires forall k :: 0 <= k < i ==> images[k].reference != r.reference
    ensures Lookup(images, r.reference).Some? && Replaced(images, r) == images[i := r]
  {
    if i > 0 {
      ReplacedAt(images[1..], r, i - 1);
      assert images[i := r] == [images[0]] + images[1..][i - 1 := r];
    } else {
      assert images[0 := r] == [r] + images[1..];
    }
  }

  /** Appending a new reference and sorting is inserting it. */
  lemma AppendedSorts(images: seq<Record>, r: Record)
    requires Increasing(images, KEY) && Lookup(images, r.reference).None?
    ensures Sorted(images + [r], KEY) == Insert(images, r, KEY)
  {
    assert (images + [r])[..|images|] == images;
    SortedOfIncreasing(images);
  }

  lemma SortedOfIncreasing(images: seq<Record>)
    requires Increasing(images, KEY)
    ensures Sorted(images, KEY) == images
  {
    forall i, j | 0 <= i < j < |images| ensures KEY(images[i]) != KEY(images[j]) {
      BeforeIrreflexive(KEY(images[i]));
    }
    SortedIsIncreasing(images, KEY);
    IncreasingIsUnique(Sorted(images, KEY), images, KEY);
  }

  // ----- journal laws -----

  lemma {:induction false} LookupReplaced(images: seq<Record>, r: Record, reference: string)
    requires Lookup(images, r.reference).Some?
    ensures Lookup(Replaced(images, r), reference) == if reference == r.reference then Some(r) else Lookup(images, reference)
  {
    if images[0].reference != r.reference {
      LookupReplaced(images[1..], r, reference);
    }
  }

  lemma {:induction false} LookupInserted(images: seq<Record>, r: Record, reference: string)
    requires Lookup(images, r.reference).None?
    ensures Lookup(Insert(images, r, KEY), reference) == if reference == r.reference then Some(r) else Lookup(images, reference)
  {
    if images != [] && !Before(r.reference, images[0].reference) {
      LookupInserted(images[1..], r, reference);
    }
  }

  /** put answers its own reference with the new record and every other one as before. */
  lemma LookupPut(images: seq<Record>, r: Record, reference: string)
    ensures Lookup(Put(images, r), reference) == if reference == r.reference then Some(r) else Lookup(images, reference)
  {
    if Lookup(images, r.reference).Some? {
      LookupReplaced(images, r, reference);
    } else {
      LookupInserted(images, r, reference);
    }
  }

  lemma {:induction false} ReplacedKeys(images: seq<Record>, r: Record)
    ensures forall i :: 0 <= i < |images| ==> Replaced(images, r)[i].reference == images[i].reference
  {
    if images != [] && images[0].reference != r.reference {
      ReplacedKeys(images[1..], r);
    }
  }

  /** put keeps the journal sorted and without duplicates. */
  lemma PutIncreasing(images: seq<Record>, r: Record)
    requires Increasing(images, KEY)
    ensures Increasing(Put(images, r), KEY)
  {
    if Lookup(images, r.reference).Some? {
      ReplacedKeys(images, r);
    } else {
      InsertIncreasing(images, r, KEY);
    }
  }

  /** Putting back the record the journal already has changes nothing. */
  lemma {:induction false} PutSame(images: seq<Record>, r: Record)
    requires Lookup(images, r.reference) == Some(r)
    ensures Put(images, r) == images
  {
    if images[0].reference != r.reference {
      PutSame(images[1..], r);
    }
    assert images == [images[0]] + images[1..];
  }

  // ----- what a push may touch -----

  /** Whatever the journal and the registry, a push never re-points a tag that lacks the suffix: it goes
      to an absent tag, or to one that ends in -k3sm-migrated- and the first 12 characters of the pushed
      digest, within the tag limit. */
  lemma PushNeverRepointsAnOrdinaryTag(w: World, images: seq<Record>, reg: Registry, g: Group)
    ensures var push := Migrate(w, images, reg, g).push;
      push.Some? && push.value.target in reg ==>
        Suffixed(push.value.target) && SuffixHex(push.value.target) == push.value.digest[..HEX] && |push.value.target.tag| <= MAX_TAG
  {
  }
}
