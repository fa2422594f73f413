/** Crashes and re-runs of the migration: when the journal of a run is honest, when a second run changes
    nothing, and when any number of interrupted runs followed by one completed run come out as one
    uninterrupted run does. All three hold exactly when no push displaces an earlier group's record. */
module MigrationRecovery {
  import opened Wrappers
  import opened Ordering
  import opened ImageMigration

  /** Every reference is one group's. */
  ghost predicate DistinctReferences(groups: seq<Group>) {
    forall i, j :: 0 <= i < j < |groups| ==> groups[i][0].reference != groups[j][0].reference
  }

  ghost predicate Silent(w: World, d: Durable, g: Group) {
    Migrate(w, d.images, d.registry, g).push.None?
  }

  // ----- runs by prefixes -----

  /** The durable state after the first k groups of the run from d. */
  ghost function At(w: World, d: Durable, groups: seq<Group>, k: nat): Durable
    requires k <= |groups|
  {
    AfterGroups(w, d, groups[..k])
  }

  /** What the run decides for group k, at its turn. */
  ghost function DecisionOf(w: World, d: Durable, groups: seq<Group>, k: nat): Decision
    requires k < |groups|
  {
    Migrate(w, At(w, d, groups, k).images, At(w, d, groups, k).registry, groups[k])
  }

  lemma MigrateNames(w: World, images: seq<Record>, reg: Registry, g: Group)
    ensures Migrate(w, images, reg, g).record.reference == g[0].reference
    ensures Migrate(w, images, reg, g).record.sources == Sources(g)
  {
    hide Sources, Platforms, Renamed;
  }

  /** A group's turn writes its own record and leaves the others alone. */
  lemma NextRecord(w: World, d: Durable, groups: seq<Group>, k: nat, reference: string)
    requires k < |groups|
    ensures Lookup(At(w, d, groups, k + 1).images, reference)
            == if reference == groups[k][0].reference then Some(DecisionOf(w, d, groups, k).record)
               else Lookup(At(w, d, groups, k).images, reference)
  {
    hide Migrate, Put, Lookup, Sources, AfterGroups;
    var mid := At(w, d, groups, k);
    OneMoreGroup(w, d, groups, k);
    MigrateNames(w, mid.images, mid.registry, groups[k]);
    LookupPut(mid.images, DecisionOf(w, d, groups, k).record, reference);
  }

  /** Groups before k leave the records of later references alone. */
  lemma {:induction false} LaterRecordsUntouched(w: World, d: Durable, groups: seq<Group>, k: nat, i: nat)
    requires DistinctReferences(groups) && k <= i < |groups|
    ensures Lookup(At(w, d, groups, k).images, groups[i][0].reference) == Lookup(d.images, groups[i][0].reference)
    decreases k
  {
    hide DecisionOf, Lookup;
    if k > 0 {
      LaterRecordsUntouched(w, d, groups, k - 1, i);
      NextRecord(w, d, groups, k - 1, groups[i][0].reference);
    }
  }

  /** A group's record, once written, is left alone by the rest of the run. */
  lemma {:induction false} RecordStays(w: World, d: Durable, groups: seq<Group>, i: nat, m: nat)
    requires DistinctReferences(groups) && i < m <= |groups|
    ensures Lookup(At(w, d, groups, m).images, groups[i][0].reference) == Some(DecisionOf(w, d, groups, i).record)
    decreases m
  {
    hide At, DecisionOf, Lookup;
    NextRecord(w, d, groups, m - 1, groups[i][0].reference);
    if i < m - 1 {
      RecordStays(w, d, groups, i, m - 1);
    }
  }

  /** A run never removes a tag. */
  lemma {:induction false} TagsStay(w: World, d: Durable, groups: seq<Group>, i: nat, m: nat)
    requires i <= m <= |groups|
    ensures At(w, d, groups, i).registry.Keys <= At(w, d, groups, m).registry.Keys
    decreases m
  {
    hide Migrate, Put;
    if i < m {
      TagsStay(w, d, groups, i, m - 1);
      OneMoreGroup(w, d, groups, m - 1);
    }
  }

  // ----- what the journal promises -----

  /** The record of group i after the run: the current sources, and the registry holding what it says. */
  ghost predicate Honest(d: Durable, g: Group) {
    && Lookup(d.images, g[0].reference).Some?
    && var r := Lookup(d.images, g[0].reference).value;
       r.sources == Sources(g) && (InRegistry(r.verdict) ==> HoldsPlace(d.registry, r.place))
  }

  /** A reference no registry could take. */
  ghost predicate Stuck(w: World, g: Group) {
    (w.isLocal(g[0].reference) || !Cached(w, g)) && (w.target(g[0].reference).None? || w.exported(g).None?)
  }

  /** An unexportable record is for a stuck reference. */
  ghost predicate Repeatable(w: World, d: Durable, g: Group) {
    && Lookup(d.images, g[0].reference).Some?
    && var r := Lookup(d.images, g[0].reference).value;
       !Done(r.verdict) ==> r == Outcome(g, Unexportable, None) && Stuck(w, g)
  }

  lemma DecisionHonest(w: World, images: seq<Record>, reg: Registry, g: Group)
    ensures var dec := Migrate(w, images, reg, g); InRegistry(dec.record.verdict) ==> HoldsPlace(Pushed(reg, dec.push), dec.record.place)
    ensures var r := Migrate(w, images, reg, g).record; !Done(r.verdict) ==> r == Outcome(g, Unexportable, None) && Stuck(w, g)
  {
    hide Sources, Platforms, Renamed;
  }

  lemma GroupHonest(w: World, d: Durable, g: Group)
    ensures Honest(AfterGroup(w, d, g), g) && Repeatable(w, AfterGroup(w, d, g), g)
  {
    hide Migrate, Put;
    var r := Migrate(w, d.images, d.registry, g).record;
    MigrateNames(w, d.images, d.registry, g);
    DecisionHonest(w, d.images, d.registry, g);
    LookupPut(d.images, r, g[0].reference);
    assert Lookup(AfterGroup(w, d, g).images, g[0].reference) == Some(r);
  }


  /** The push of a decision takes the tag a record relies on for another digest. */
  predicate Displaces(dec: Decision, r: Record) {
    && dec.push.Some? && InRegistry(r.verdict) && r.place.Some?
    && dec.push.value.target == r.place.value.target && dec.push.value.digest != r.place.value.digest
  }

  /** No push of the run displaces the record of an earlier group. */
  ghost predicate NeverDisplaces(w: World, d: Durable, groups: seq<Group>) {
    forall i, k :: 0 <= i < k < |groups| ==> !Displaces(DecisionOf(w, d, groups, k), DecisionOf(w, d, groups, i).record)
  }

  /** The registry bears a record out. */
  predicate Backed(reg: Registry, r: Record) {
    InRegistry(r.verdict) ==> HoldsPlace(reg, r.place)
  }

  /** A group's record is honest exactly when the registry bears it out. */
  lemma HonestIffBacked(w: World, d: Durable, groups: seq<Group>, i: nat, m: nat)
    requires DistinctReferences(groups) && i < m <= |groups|
    ensures Honest(At(w, d, groups, m), groups[i]) <==> Backed(At(w, d, groups, m).registry, DecisionOf(w, d, groups, i).record)
  {
    hide Migrate;
    RecordStays(w, d, groups, i, m);
    MigrateNames(w, At(w, d, groups, i).images, At(w, d, groups, i).registry, groups[i]);
  }

  /** A push goes where its own record says. */
  lemma PushIsPlaced(w: World, images: seq<Record>, reg: Registry, g: Group)
    ensures var dec := Migrate(w, images, reg, g); dec.push.Some? ==> InRegistry(dec.record.verdict) && dec.record.place == dec.push
  {
    hide Sources, Platforms, Renamed;
  }

  lemma {:induction false} UndisplacedIsBacked(w: World, d: Durable, groups: seq<Group>, i: nat, m: nat)
    requires NeverDisplaces(w, d, groups) && i < m <= |groups|
    ensures Backed(At(w, d, groups, m).registry, DecisionOf(w, d, groups, i).record)
    decreases m
  {
    hide Migrate, Put;
    OneMoreGroup(w, d, groups, m - 1);
    if i < m - 1 {
      UndisplacedIsBacked(w, d, groups, i, m - 1);
      assert !Displaces(DecisionOf(w, d, groups, m - 1), DecisionOf(w, d, groups, i).record);
    } else {
      DecisionHonest(w, At(w, d, groups, i).images, At(w, d, groups, i).registry, groups[i]);
    }
  }

  /** Two records at one tag with two digests are not both borne out, so a displaced record, or the one
      that displaced it, is false at the end. */
  lemma DisplacedIsNotBacked(w: World, d: Durable, groups: seq<Group>, i: nat, k: nat)
    requires i < k < |groups| && Displaces(DecisionOf(w, d, groups, k), DecisionOf(w, d, groups, i).record)
    ensures var reg := At(w, d, groups, |groups|).registry;
      !(Backed(reg, DecisionOf(w, d, groups, i).record) && Backed(reg, DecisionOf(w, d, groups, k).record))
  {
    hide Migrate, AfterGroups;
    PushIsPlaced(w, At(w, d, groups, k).images, At(w, d, groups, k).registry, groups[k]);
  }

  /** Every record written so far is honest, after every prefix of the run. */
  ghost predicate HonestThroughout(w: World, d: Durable, groups: seq<Group>) {
    forall i, m :: 0 <= i < m <= |groups| ==> Honest(At(w, d, groups, m), groups[i])
  }

  ghost predicate AllHonest(d: Durable, groups: seq<Group>) {
    forall i :: 0 <= i < |groups| ==> Honest(d, groups[i])
  }

  /** The journal's honesty, exactly: it holds at the end of a run, and at every point of it, if and only
      if no push displaces an earlier group's record. */
  lemma HonestIffNeverDisplaced(w: World, d: Durable, groups: seq<Group>)
    requires DistinctReferences(groups)
    ensures AllHonest(AfterGroups(w, d, groups), groups) <==> NeverDisplaces(w, d, groups)
    ensures HonestThroughout(w, d, groups) <==> NeverDisplaces(w, d, groups)
  {
    hide AfterGroups, Honest, Backed, DecisionOf, Displaces;
    var n := |groups|;
    assert groups[..n] == groups;
    forall i, m | 0 <= i < m <= n
      ensures Honest(At(w, d, groups, m), groups[i]) <==> Backed(At(w, d, groups, m).registry, DecisionOf(w, d, groups, i).record)
      ensures NeverDisplaces(w, d, groups) ==> Honest(At(w, d, groups, m), groups[i])
    {
      HonestIffBacked(w, d, groups, i, m);
      if NeverDisplaces(w, d, groups) {
        UndisplacedIsBacked(w, d, groups, i, m);
      }
    }
    var f := At(w, d, groups, n);
    assert forall i :: 0 <= i < n && NeverDisplaces(w, d, groups) ==> Honest(f, groups[i]);
    if !NeverDisplaces(w, d, groups) {
      var i, k :| 0 <= i < k < n && Displaces(DecisionOf(w, d, groups, k), DecisionOf(w, d, groups, i).record);
      DisplacedIsNotBacked(w, d, groups, i, k);
      assert !Honest(f, groups[i]) || !Honest(f, groups[k]);
    }
  }

  // ----- a completed run, and a second one -----

  lemma {:induction false} JournalStaysSorted(w: World, d: Durable, groups: seq<Group>, k: nat)
    requires Increasing(d.images, KEY) && k <= |groups|
    ensures Increasing(At(w, d, groups, k).images, KEY)
    decreases k
  {
    hide Migrate, Put, Increasing;
    if k > 0 {
      JournalStaysSorted(w, d, groups, k - 1);
      OneMoreGroup(w, d, groups, k - 1);
      PutIncreasing(At(w, d, groups, k - 1).images, DecisionOf(w, d, groups, k - 1).record);
    }
  }

  /** A completed run: a sorted journal without duplicates, one record with the current sources for every
      reference of the store; and every in-registry record is held by the registry at the end exactly when
      no push displaced one. */
  lemma CompletedRunIsHonest(w: World, d: Durable, groups: seq<Group>)
    requires DistinctReferences(groups) && Increasing(d.images, KEY)
    ensures var f := AfterGroups(w, d, groups);
      && Increasing(f.images, KEY)
      && (forall i :: 0 <= i < |groups| ==>
            Lookup(f.images, groups[i][0].reference).Some? && Lookup(f.images, groups[i][0].reference).value.sources == Sources(groups[i]))
      && (AllHonest(f, groups) <==> NeverDisplaces(w, d, groups))
  {
    hide DecisionOf, AfterGroups, Increasing, AllHonest, NeverDisplaces, Lookup, Sources;
    assert groups[..|groups|] == groups;
    JournalStaysSorted(w, d, groups, |groups|);
    HonestIffNeverDisplaced(w, d, groups);
    forall i | 0 <= i < |groups|
      ensures Lookup(At(w, d, groups, |groups|).images, groups[i][0].reference).Some?
      ensures Lookup(At(w, d, groups, |groups|).images, groups[i][0].reference).value.sources == Sources(groups[i])
    {
      RecordHasSources(w, d, groups, i);
    }
  }

  lemma RecordHasSources(w: World, d: Durable, groups: seq<Group>, i: nat)
    requires DistinctReferences(groups) && i < |groups|
    ensures var r := Lookup(At(w, d, groups, |groups|).images, groups[i][0].reference); r.Some? && r.value.sources == Sources(groups[i])
  {
    hide Migrate, AfterGroups, Lookup, Sources;
    RecordStays(w, d, groups, i, |groups|);
    MigrateNames(w, At(w, d, groups, i).images, At(w, d, groups, i).registry, groups[i]);
  }

  /** Upstream serves every entry of an image that is not local. */
  ghost predicate ServedUpstream(w: World, g: Group) {
    && !w.isLocal(g[0].reference)
    && forall e :: e in g ==> w.serves(e.reference, if e.indexDigest.Some? then e.indexDigest.value else e.digest)
  }

  /** What becomes of an image, said of its registry and upstream alone. It is left a cache entry exactly if
      upstream serves all of it; it stays behind exactly if, otherwise, it has no registry name or does not
      export; and otherwise the registry holds it afterwards, at its own tag unless that holds another image,
      and then at the tag aside. Nothing else in the registry changes. */
  ghost predicate Fate(w: World, before: Registry, g: Group, r: Record, after: Registry) {
    var flat, x := w.target(g[0].reference), w.exported(g);
    && r.reference == g[0].reference && r.platforms == seq(|g|, i requires 0 <= i < |g| => g[i].platform)
    && (r.verdict == CacheEntry <==> ServedUpstream(w, g))
    && (r.verdict == Unexportable <==> !ServedUpstream(w, g) && (flat.None? || x.None?))
    && (!InRegistry(r.verdict) ==> after == before)
    && (InRegistry(r.verdict) ==>
          && flat.Some? && x.Some?
          && var at := if flat.value in before && before[flat.value] != x.value then Renamed(flat.value, x.value) else flat.value;
          && r.place == Some(Place(at, x.value)) && after == before[at := x.value]
          && (r.verdict == Present <==> Holds(before, flat.value, x.value))
          && (r.verdict == Migrated <==> flat.value !in before))
  }

  /** Every image the journal does not settle. */
  lemma ImageAccountedFor(w: World, d: Durable, g: Group)
    requires !Finished(Lookup(d.images, g[0].reference), d.registry, g)
    ensures Fate(w, d.registry, g, Migrate(w, d.images, d.registry, g).record, AfterGroup(w, d, g).registry)
  {
    hide Sources, Renamed, Put, Platforms;
    PlatformsAre(g);
    var dec := Migrate(w, d.images, d.registry, g);
    if InRegistry(dec.record.verdict) && dec.push.None? {
      assert d.registry[dec.record.place.value.target := dec.record.place.value.digest] == d.registry;
    }
  }

  /** So a completed run that displaces nothing copies every image the first journal does not settle: but for
      cache entries and images that cannot be exported, the registry holds each at the end. */
  lemma CompletedRunCopiesEveryImage(w: World, d: Durable, groups: seq<Group>, i: nat)
    requires DistinctReferences(groups) && NeverDisplaces(w, d, groups) && i < |groups|
    requires !Finished(Lookup(d.images, groups[i][0].reference), At(w, d, groups, i).registry, groups[i])
    requires w.isLocal(groups[i][0].reference) || !Cached(w, groups[i])
    requires w.target(groups[i][0].reference).Some? && w.exported(groups[i]).Some?
    ensures var f, flat, x := AfterGroups(w, d, groups), w.target(groups[i][0].reference).value, w.exported(groups[i]).value;
      Holds(f.registry, flat, x) || (flat in f.registry && Holds(f.registry, Renamed(flat, x), x))
  {
    hide Migrate, Put, NeverDisplaces, Renamed, AfterGroups;
    var n, mid := |groups|, At(w, d, groups, i);
    assert groups[..n] == groups;
    LaterRecordsUntouched(w, d, groups, i, i);
    ImageAccountedFor(w, mid, groups[i]);
    UndisplacedIsBacked(w, d, groups, i, n);
    TagsStay(w, d, groups, i, n);
  }

  lemma {:induction false} HonestRunIsStill(w: World, f: Durable, groups: seq<Group>)
    requires forall i :: 0 <= i < |groups| ==> Honest(f, groups[i]) && Repeatable(w, f, groups[i])
    ensures AfterGroups(w, f, groups) == f
    ensures forall i :: 0 <= i < |groups| ==> Silent(w, f, groups[i])
    decreases |groups|
  {
    hide Sources, Platforms, Renamed, Put;
    if groups != [] {
      PutSame(f.images, Lookup(f.images, groups[0][0].reference).value);
      assert AfterGroup(w, f, groups[0]) == f;
      HonestRunIsStill(w, f, groups[1..]);
    }
  }

  /** A run from f does nothing, group by group. */
  ghost predicate StandsStill(w: World, f: Durable, groups: seq<Group>) {
    && (forall k :: 0 <= k <= |groups| ==> At(w, f, groups, k) == f)
    && (forall i :: 0 <= i < |groups| ==> Silent(w, f, groups[i]))
  }

  /** A run stands still exactly when every record is honest. */
  lemma StillIffHonest(w: World, f: Durable, groups: seq<Group>)
    requires forall i :: 0 <= i < |groups| ==> Repeatable(w, f, groups[i])
    ensures StandsStill(w, f, groups) <==> AllHonest(f, groups)
  {
    hide Migrate, Put, Honest, Repeatable, Silent;
    if AllHonest(f, groups) {
      forall k | 0 <= k <= |groups| ensures At(w, f, groups, k) == f {
        HonestRunIsStill(w, f, groups[..k]);
      }
      HonestRunIsStill(w, f, groups);
    }
    if StandsStill(w, f, groups) {
      forall i | 0 <= i < |groups| ensures Honest(f, groups[i]) {
        OneMoreGroup(w, f, groups, i);
        assert At(w, f, groups, i) == f && At(w, f, groups, i + 1) == f;
        GroupHonest(w, f, groups[i]);
      }
    }
  }

  lemma RunRepeatable(w: World, d: Durable, groups: seq<Group>, i: nat)
    requires DistinctReferences(groups) && i < |groups|
    ensures Repeatable(w, At(w, d, groups, |groups|), groups[i])
  {
    RecordStays(w, d, groups, i, |groups|);
    DecisionHonest(w, At(w, d, groups, i).images, At(w, d, groups, i).registry, groups[i]);
    hide Migrate, Put, Stuck;
  }

  /** A second run over the same store pushes nothing and leaves the journal and the registry as they are
      exactly when no push of the first displaced a record. */
  lemma SecondRunChangesNothing(w: World, d: Durable, groups: seq<Group>)
    requires DistinctReferences(groups)
    ensures StandsStill(w, AfterGroups(w, d, groups), groups) <==> NeverDisplaces(w, d, groups)
  {
    hide Migrate, AfterGroups, Repeatable, NeverDisplaces, StandsStill, AllHonest;
    var n := |groups|;
    assert groups[..n] == groups;
    forall i | 0 <= i < n ensures Repeatable(w, At(w, d, groups, n), groups[i]) {
      RunRepeatable(w, d, groups, i);
    }
    StillIffHonest(w, At(w, d, groups, n), groups);
    HonestIffNeverDisplaced(w, d, groups);
  }

  // ----- how far a durable state has got -----

  /** The journal the run starts with already settles group i when its turn comes. */
  ghost predicate SettledBefore(w: World, d0: Durable, groups: seq<Group>, i: nat)
    requires i < |groups|
  {
    Finished(Lookup(d0.images, groups[i][0].reference), At(w, d0, groups, i).registry, groups[i])
  }

  /** Some record the first m groups of the clean run write relies on this very place. */
  ghost predicate Vouched(w: World, d0: Durable, groups: seq<Group>, m: nat, p: Option<Place>)
    requires m <= |groups|
  {
    exists l :: 0 <= l < m && InRegistry(DecisionOf(w, d0, groups, l).record.verdict) && DecisionOf(w, d0, groups, l).record.place == p
  }

  /** d holds what the first m groups of the clean run from d0 leave in the registry. The records of the
      other groups, and of those the first journal settles, are as they were; the rest may or may not have
      been written, and rely only on places the clean run relies on. */
  ghost predicate Aligned(w: World, d0: Durable, groups: seq<Group>, d: Durable, m: nat) {
    && m <= |groups|
    && d.registry == At(w, d0, groups, m).registry
    && (forall i :: 0 <= i < |groups| && (m <= i || SettledBefore(w, d0, groups, i)) ==>
          Lookup(d.images, groups[i][0].reference) == Lookup(d0.images, groups[i][0].reference))
    && (forall i :: 0 <= i < m ==> JournalFits(w, d0, groups, d, m, i))
  }

  ghost predicate JournalFits(w: World, d0: Durable, groups: seq<Group>, d: Durable, m: nat, i: nat)
    requires i < m <= |groups|
  {
    var r := Lookup(d.images, groups[i][0].reference);
    || r == Lookup(d0.images, groups[i][0].reference)
    || (r.Some? && (InRegistry(r.value.verdict) ==> Vouched(w, d0, groups, m, r.value.place)))
  }

  /** What an undisplaced record's decision leaves settled stays settled: asked again later in the run the
      decision pushes nothing. */
  lemma DecideAgain(w: World, reg: Registry, reg': Registry, g: Group)
    requires reg.Keys <= reg'.Keys
    requires var r := Decide(w, reg, g).record; InRegistry(r.verdict) ==> HoldsPlace(reg', r.place)
    ensures Decide(w, reg', g).push.None?
  {
    hide Sources, Platforms, Renamed;
  }

  /** A group behind the alignment needs no push, and keeps the record the first journal settled. */
  lemma BehindIsSilent(w: World, d0: Durable, groups: seq<Group>, d: Durable, m: nat, i: nat)
    requires DistinctReferences(groups) && NeverDisplaces(w, d0, groups) && Aligned(w, d0, groups, d, m) && i < m
    ensures Silent(w, d, groups[i])
    ensures SettledBefore(w, d0, groups, i) ==>
              Some(Migrate(w, d.images, d.registry, groups[i]).record) == Lookup(d0.images, groups[i][0].reference)
  {
    hide Decide, Put, NeverDisplaces, Sources;
    UndisplacedIsBacked(w, d0, groups, i, m);
    LaterRecordsUntouched(w, d0, groups, i, i);
    TagsStay(w, d0, groups, i, m);
    if !SettledBefore(w, d0, groups, i) {
      DecideAgain(w, At(w, d0, groups, i).registry, d.registry, groups[i]);
    }
  }

  /** A place the registry has come to hold was pushed there, and a record relies on it. */
  lemma {:induction false} HeldSince(w: World, d0: Durable, groups: seq<Group>, i: nat, m: nat, p: Place)
    requires i <= m <= |groups| && HoldsPlace(At(w, d0, groups, m).registry, Some(p)) && !HoldsPlace(At(w, d0, groups, i).registry, Some(p))
    ensures Vouched(w, d0, groups, m, Some(p))
    decreases m
  {
    hide Migrate, Put;
    OneMoreGroup(w, d0, groups, m - 1);
    var before := At(w, d0, groups, m - 1);
    if HoldsPlace(before.registry, Some(p)) {
      HeldSince(w, d0, groups, i, m - 1, p);
    } else {
      PushIsPlaced(w, before.images, before.registry, groups[m - 1]);
      assert DecisionOf(w, d0, groups, m - 1).push == Some(p);
    }
  }

  /** Decided again later, a reference whose new place was already held gets the place it got before. */
  lemma DecideSamePlace(w: World, reg: Registry, reg': Registry, g: Group)
    requires reg.Keys <= reg'.Keys && Backed(reg', Decide(w, reg, g).record)
    requires var r := Decide(w, reg', g).record; InRegistry(r.verdict) && HoldsPlace(reg, r.place)
    ensures InRegistry(Decide(w, reg, g).record.verdict) && Decide(w, reg, g).record.place == Decide(w, reg', g).record.place
  {
    hide Sources, Platforms, Renamed;
  }

  /** The record a group behind the alignment gets when it is done again relies on a vouched place. */
  lemma RedoVouched(w: World, d0: Durable, groups: seq<Group>, d: Durable, m: nat, i: nat)
    requires DistinctReferences(groups) && NeverDisplaces(w, d0, groups) && Aligned(w, d0, groups, d, m) && i < m
    ensures var r := Migrate(w, d.images, d.registry, groups[i]).record; InRegistry(r.verdict) ==> Vouched(w, d0, groups, m, r.place)
  {
    hide Decide, Put, NeverDisplaces, Sources, Vouched, AfterGroups;
    var r := Migrate(w, d.images, d.registry, groups[i]).record;
    var reg := At(w, d0, groups, i).registry;
    DecisionHonest(w, d.images, d.registry, groups[i]);
    BehindIsSilent(w, d0, groups, d, m, i);
    UndisplacedIsBacked(w, d0, groups, i, m);
    LaterRecordsUntouched(w, d0, groups, i, i);
    assert JournalFits(w, d0, groups, d, m, i);
    if InRegistry(r.verdict) {
      if !HoldsPlace(reg, r.place) {
        HeldSince(w, d0, groups, i, m, r.place.value);
      } else if Finished(Lookup(d.images, groups[i][0].reference), d.registry, groups[i]) {
        if Lookup(d.images, groups[i][0].reference) == Lookup(d0.images, groups[i][0].reference) {
          OwnPlaceVouched(w, d0, groups, m, i, r);
        }
      } else {
        TagsStay(w, d0, groups, i, m);
        DecideSamePlace(w, reg, d.registry, groups[i]);
        OwnPlaceVouched(w, d0, groups, m, i, r);
      }
    }
  }

  lemma OwnPlaceVouched(w: World, d0: Durable, groups: seq<Group>, m: nat, i: nat, r: Record)
    requires i < m <= |groups| && InRegistry(DecisionOf(w, d0, groups, i).record.verdict) && r.place == DecisionOf(w, d0, groups, i).record.place
    ensures Vouched(w, d0, groups, m, r.place)
  {
  }

  /** The clean run's decision for group m is the one an aligned state takes. */
  lemma SameDecision(w: World, d0: Durable, groups: seq<Group>, d: Durable, m: nat)
    requires DistinctReferences(groups) && m < |groups| && Aligned(w, d0, groups, d, m)
    ensures Migrate(w, d.images, d.registry, groups[m]) == DecisionOf(w, d0, groups, m)
    ensures SettledBefore(w, d0, groups, m) ==>
              Some(Migrate(w, d.images, d.registry, groups[m]).record) == Lookup(d0.images, groups[m][0].reference)
  {
    hide Put, Decide, Sources;
    LaterRecordsUntouched(w, d0, groups, m, m);
  }

  /** Writing group k's record leaves every other record, and k's own when it is the same again. */
  lemma PutKeeps(w: World, groups: seq<Group>, d: Durable, k: nat, i: nat)
    requires DistinctReferences(groups) && k < |groups| && i < |groups|
    ensures var rec := Migrate(w, d.images, d.registry, groups[k]).record;
      Lookup(AfterGroup(w, d, groups[k]).images, groups[i][0].reference) ==
      if i == k then Some(rec) else Lookup(d.images, groups[i][0].reference)
  {
    MigrateNames(w, d.images, d.registry, groups[k]);
    LookupPut(d.images, Migrate(w, d.images, d.registry, groups[k]).record, groups[i][0].reference);
    hide Migrate, Put;
  }

  /** Re-doing a group behind the alignment keeps it. */
  lemma RedoAligned(w: World, d0: Durable, groups: seq<Group>, d: Durable, m: nat, k: nat)
    requires DistinctReferences(groups) && NeverDisplaces(w, d0, groups) && Aligned(w, d0, groups, d, m) && k < m
    ensures Aligned(w, d0, groups, AfterGroup(w, d, groups[k]), m)
    ensures AfterPush(w, d, groups[k]) == d
  {
    hide Migrate, Put, NeverDisplaces, SettledBefore, At, Vouched;
    BehindIsSilent(w, d0, groups, d, m, k);
    RedoVouched(w, d0, groups, d, m, k);
    forall i | 0 <= i < m ensures JournalFits(w, d0, groups, AfterGroup(w, d, groups[k]), m, i) {
      PutKeeps(w, groups, d, k, i);
      assert JournalFits(w, d0, groups, d, m, i);
    }
    forall i | 0 <= i < |groups| && (m <= i || SettledBefore(w, d0, groups, i))
      ensures Lookup(AfterGroup(w, d, groups[k]).images, groups[i][0].reference) == Lookup(d0.images, groups[i][0].reference)
    {
      PutKeeps(w, groups, d, k, i);
    }
  }

  lemma FitsLater(w: World, d0: Durable, groups: seq<Group>, d: Durable, m: nat, i: nat)
    requires i < m < |groups| && JournalFits(w, d0, groups, d, m, i)
    ensures JournalFits(w, d0, groups, d, m + 1, i)
  {
    hide DecisionOf;
  }

  /** Carrying out the next group, or only its push, advances the alignment by one. */
  lemma NextAligned(w: World, d0: Durable, groups: seq<Group>, d: Durable, m: nat)
    requires DistinctReferences(groups) && Aligned(w, d0, groups, d, m) && m < |groups|
    ensures Aligned(w, d0, groups, AfterGroup(w, d, groups[m]), m + 1)
    ensures Aligned(w, d0, groups, AfterPush(w, d, groups[m]), m + 1)
  {
    hide Migrate, Put, SettledBefore, AfterGroups;
    var next, half, m1 := AfterGroup(w, d, groups[m]), AfterPush(w, d, groups[m]), m + 1;
    SameDecision(w, d0, groups, d, m);
    OneMoreGroup(w, d0, groups, m);
    forall i | 0 <= i < m1
      ensures JournalFits(w, d0, groups, next, m1, i) && JournalFits(w, d0, groups, half, m1, i)
    {
      PutKeeps(w, groups, d, m, i);
      if i < m {
        FitsLater(w, d0, groups, d, m, i);
      } else if InRegistry(DecisionOf(w, d0, groups, m).record.verdict) {
        OwnPlaceVouched(w, d0, groups, m + 1, m, DecisionOf(w, d0, groups, m).record);
      }
    }
    forall i | 0 <= i < |groups| && (m + 1 <= i || SettledBefore(w, d0, groups, i))
      ensures Lookup(AfterGroup(w, d, groups[m]).images, groups[i][0].reference) == Lookup(d0.images, groups[i][0].reference)
    {
      PutKeeps(w, groups, d, m, i);
    }
  }

  function Max(a: nat, b: nat): nat { if a < b then b else a }

  /** A re-run from an aligned state, stopped after k groups, is aligned at the later of the two points. */
  lemma {:induction false} RerunAligned(w: World, d0: Durable, groups: seq<Group>, d: Durable, m: nat, k: nat)
    requires DistinctReferences(groups) && NeverDisplaces(w, d0, groups) && Aligned(w, d0, groups, d, m) && k <= |groups|
    ensures Aligned(w, d0, groups, AfterGroups(w, d, groups[..k]), Max(m, k))
    decreases k
  {
    hide Migrate, Put, NeverDisplaces, Aligned;
    if k == 0 {
      assert groups[..0] == [];
    } else {
      RerunAligned(w, d0, groups, d, m, k - 1);
      OneMoreGroup(w, d, groups, k - 1);
      var mid := AfterGroups(w, d, groups[..k - 1]);
      if k - 1 < m {
        RedoAligned(w, d0, groups, mid, m, k - 1);
      } else {
        NextAligned(w, d0, groups, mid, k - 1);
      }
    }
  }

  // ----- crashes -----

  ghost function AfterCrashes(w: World, d: Durable, groups: seq<Group>, crashes: seq<Crash>): Durable
    requires forall i :: 0 <= i < |crashes| ==> CrashPoint(crashes[i], groups)
    decreases |crashes|
  {
    if crashes == [] then d else AfterCrashes(w, AfterCrash(w, d, groups, crashes[0]), groups, crashes[1..])
  }

  lemma CrashAligned(w: World, d0: Durable, groups: seq<Group>, d: Durable, m: nat, c: Crash) returns (m': nat)
    requires DistinctReferences(groups) && NeverDisplaces(w, d0, groups) && Aligned(w, d0, groups, d, m) && CrashPoint(c, groups)
    ensures Aligned(w, d0, groups, AfterCrash(w, d, groups, c), m')
  {
    hide Migrate, Put, NeverDisplaces, Aligned;
    RerunAligned(w, d0, groups, d, m, c.done);
    m' := Max(m, c.done);
    if c.pushed {
      m' := HalfAligned(w, d0, groups, AfterGroups(w, d, groups[..c.done]), m', c.done);
    }
  }

  /** The push of group k alone, from a state aligned at k or later. */
  lemma HalfAligned(w: World, d0: Durable, groups: seq<Group>, d: Durable, m: nat, k: nat) returns (m': nat)
    requires DistinctReferences(groups) && NeverDisplaces(w, d0, groups) && Aligned(w, d0, groups, d, m) && k <= m && k < |groups|
    ensures Aligned(w, d0, groups, AfterPush(w, d, groups[k]), m')
  {
    hide Migrate, Put, NeverDisplaces, Aligned;
    if k < m {
      RedoAligned(w, d0, groups, d, m, k);
      m' := m;
    } else {
      NextAligned(w, d0, groups, d, k);
      m' := k + 1;
    }
  }

  lemma {:induction false} CrashesAligned(w: World, d0: Durable, groups: seq<Group>, d: Durable, m: nat, crashes: seq<Crash>) returns (m': nat)
    requires DistinctReferences(groups) && NeverDisplaces(w, d0, groups) && Aligned(w, d0, groups, d, m)
    requires forall i :: 0 <= i < |crashes| ==> CrashPoint(crashes[i], groups)
    ensures Aligned(w, d0, groups, AfterCrashes(w, d, groups, crashes), m')
    decreases |crashes|
  {
    hide Migrate, Put, NeverDisplaces, Aligned;
    m' := m;
    if crashes != [] {
      m' := CrashAligned(w, d0, groups, d, m, crashes[0]);
      m' := CrashesAligned(w, d0, groups, AfterCrash(w, d, groups, crashes[0]), m', crashes[1..]);
    }
  }

  /** Behind the alignment a resumed run pushes nothing and relies on vouched places; from it on it decides
      as the clean run does. */
  lemma ResumedDecision(w: World, d0: Durable, groups: seq<Group>, d: Durable, m: nat, k: nat)
    requires DistinctReferences(groups) && NeverDisplaces(w, d0, groups) && Aligned(w, d0, groups, d, m) && k < |groups|
    ensures var dec := DecisionOf(w, d, groups, k);
      if k < m then m <= |groups| && dec.push.None? && (InRegistry(dec.record.verdict) ==> Vouched(w, d0, groups, m, dec.record.place))
      else dec == DecisionOf(w, d0, groups, k)
  {
    hide Migrate, NeverDisplaces, AfterGroups, Vouched;
    RerunAligned(w, d0, groups, d, m, k);
    if k < m {
      BehindIsSilent(w, d0, groups, At(w, d, groups, k), m, k);
      RedoVouched(w, d0, groups, At(w, d, groups, k), m, k);
    } else {
      SameDecision(w, d0, groups, At(w, d, groups, k), k);
    }
  }

  lemma NotDisplaced(w: World, d0: Durable, groups: seq<Group>, d: Durable, m: nat, i: nat, k: nat)
    requires DistinctReferences(groups) && NeverDisplaces(w, d0, groups) && Aligned(w, d0, groups, d, m) && i < k < |groups|
    ensures !Displaces(DecisionOf(w, d, groups, k), DecisionOf(w, d, groups, i).record)
  {
    hide DecisionOf, Aligned;
    ResumedDecision(w, d0, groups, d, m, k);
    ResumedDecision(w, d0, groups, d, m, i);
    var r := DecisionOf(w, d, groups, i).record;
    if k >= m > i && InRegistry(r.verdict) {
      var l :| 0 <= l < m && InRegistry(DecisionOf(w, d0, groups, l).record.verdict) && DecisionOf(w, d0, groups, l).record.place == r.place;
      assert !Displaces(DecisionOf(w, d0, groups, k), DecisionOf(w, d0, groups, l).record);
    }
  }

  /** The run that completes a crashed one displaces no record either: its pushes are the clean run's, and
      its records rely only on places the clean run relies on. */
  lemma ResumedNeverDisplaces(w: World, d0: Durable, groups: seq<Group>, d: Durable, m: nat)
    requires DistinctReferences(groups) && NeverDisplaces(w, d0, groups) && Aligned(w, d0, groups, d, m)
    ensures NeverDisplaces(w, d, groups)
  {
    hide DecisionOf, Aligned, Displaces;
    forall i, k | 0 <= i < k < |groups| ensures !Displaces(DecisionOf(w, d, groups, k), DecisionOf(w, d, groups, i).record) {
      NotDisplaced(w, d0, groups, d, m, i, k);
    }
  }

  ghost predicate CrashPoints(crashes: seq<Crash>, groups: seq<Group>) {
    forall i :: 0 <= i < |crashes| ==> CrashPoint(crashes[i], groups)
  }

  /** Crash-resume equivalence: after these crashes a completed run leaves the clean run's registry, in a
      state a further run leaves alone. */
  ghost predicate Resumes(w: World, d0: Durable, groups: seq<Group>, crashes: seq<Crash>)
    requires CrashPoints(crashes, groups)
  {
    var resumed := AfterGroups(w, AfterCrashes(w, d0, groups, crashes), groups);
    resumed.registry == AfterGroups(w, d0, groups).registry && StandsStill(w, resumed, groups)
  }

  /** It holds for a clean run that displaces no record, whatever the crashes, */
  lemma ResumeEqualsCleanRun(w: World, d0: Durable, groups: seq<Group>, crashes: seq<Crash>)
    requires DistinctReferences(groups) && NeverDisplaces(w, d0, groups) && CrashPoints(crashes, groups)
    ensures Resumes(w, d0, groups, crashes)
  {
    hide Migrate, Put, NeverDisplaces, StandsStill;
    assert groups[..0] == [];
    var d := AfterCrashes(w, d0, groups, crashes);
    var m := CrashesAligned(w, d0, groups, d0, 0, crashes);
    RerunAligned(w, d0, groups, d, m, |groups|);
    assert groups[..|groups|] == groups;
    ResumedNeverDisplaces(w, d0, groups, d, m);
    SecondRunChangesNothing(w, d, groups);
  }

  /** and for every sequence of crashes only then. */
  lemma ResumeIffNeverDisplaced(w: World, d0: Durable, groups: seq<Group>)
    requires DistinctReferences(groups)
    ensures (forall crashes :: CrashPoints(crashes, groups) ==> Resumes(w, d0, groups, crashes)) <==> NeverDisplaces(w, d0, groups)
  {
    hide Migrate, AfterGroups, NeverDisplaces, StandsStill;
    if NeverDisplaces(w, d0, groups) {
      forall crashes | CrashPoints(crashes, groups) ensures Resumes(w, d0, groups, crashes) {
        ResumeEqualsCleanRun(w, d0, groups, crashes);
      }
    } else {
      SecondRunChangesNothing(w, d0, groups);
      assert CrashPoints([], groups) && !Resumes(w, d0, groups, []);
    }
  }

  /** Even the registry differs whenever the first false record's image would go to its own tag, taken
      meanwhile, and its tag aside is free: re-run after its end, the migration adds that tag. */
  lemma LostOwnTagBreaksResume(w: World, d0: Durable, groups: seq<Group>, i: nat, flat: Target, x: Digest)
    requires DistinctReferences(groups) && i < |groups| && (w.isLocal(groups[i][0].reference) || !Cached(w, groups[i]))
    requires w.target(groups[i][0].reference) == Some(flat) && w.exported(groups[i]) == Some(x)
    requires DecisionOf(w, d0, groups, i).record.place == Some(Place(flat, x))
    requires var f := AfterGroups(w, d0, groups);
      && (forall j :: 0 <= j < i ==> Honest(f, groups[j])) && !Honest(f, groups[i]) && Renamed(flat, x) !in f.registry
    ensures AfterGroups(w, AfterCrashes(w, d0, groups, [Crash(|groups|, false)]), groups).registry != AfterGroups(w, d0, groups).registry
  {
    hide Renamed, Put, Sources, Platforms, Honest, Repeatable;
    var n, f := |groups|, AfterGroups(w, d0, groups);
    assert groups[..n] == groups;
    assert AfterCrashes(w, AfterCrash(w, d0, groups, Crash(n, false)), groups, []) == f;
    forall j | 0 <= j < i ensures Repeatable(w, f, groups[..i][j]) && Honest(f, groups[..i][j]) {
      RunRepeatable(w, d0, groups, j);
    }
    HonestRunIsStill(w, f, groups[..i]);
    LostOwnTagPushes(w, d0, groups, i, flat, x);
    OneMoreGroup(w, f, groups, i);
    TagsStay(w, f, groups, i + 1, n);
  }

  lemma LostOwnTagPushes(w: World, d0: Durable, groups: seq<Group>, i: nat, flat: Target, x: Digest)
    requires DistinctReferences(groups) && i < |groups| && (w.isLocal(groups[i][0].reference) || !Cached(w, groups[i]))
    requires w.target(groups[i][0].reference) == Some(flat) && w.exported(groups[i]) == Some(x)
    requires DecisionOf(w, d0, groups, i).record.place == Some(Place(flat, x))
    requires var f := AfterGroups(w, d0, groups); !Honest(f, groups[i]) && Renamed(flat, x) !in f.registry
    ensures var f := AfterGroups(w, d0, groups); Migrate(w, f.images, f.registry, groups[i]).push == Some(Place(Renamed(flat, x), x))
  {
    hide Renamed, Put, Sources, Platforms;
    var n, before := |groups|, At(w, d0, groups, i);
    assert groups[..n] == groups;
    RecordStays(w, d0, groups, i, n);
    MigrateNames(w, before.images, before.registry, groups[i]);
    DecisionHonest(w, before.images, before.registry, groups[i]);
    OneMoreGroup(w, d0, groups, i);
    TagsStay(w, d0, groups, i + 1, n);
  }

  // ----- when a run re-points nothing -----

  /** The push of g, if any, goes to a tag the registry does not hold. */
  ghost predicate PushesFresh(w: World, d: Durable, g: Group) {
    var push := Migrate(w, d.images, d.registry, g).push;
    push.Some? ==> push.value.target !in d.registry
  }

  /** No push of the run re-points a tag. */
  ghost predicate NeverOverwrites(w: World, d: Durable, groups: seq<Group>)
    decreases |groups|
  {
    groups == [] || (PushesFresh(w, d, groups[0]) && NeverOverwrites(w, AfterGroup(w, d, groups[0]), groups[1..]))
  }

  lemma {:induction false} NeverOverwritesAt(w: World, d: Durable, groups: seq<Group>, k: nat)
    requires NeverOverwrites(w, d, groups) && k < |groups|
    ensures PushesFresh(w, AfterGroups(w, d, groups[..k]), groups[k])
    decreases k
  {
    hide Migrate, Put;
    if k == 0 {
      assert groups[..0] == [];
    } else {
      assert groups[..k][1..] == groups[1..][..k - 1];
      NeverOverwritesAt(w, AfterGroup(w, d, groups[0]), groups[1..], k - 1);
    }
  }

  /** Twelve characters identify a digest among those at hand. */
  ghost predicate PrefixIdentifies(digests: set<Digest>) {
    forall a, b :: a in digests && b in digests && a[..HEX] == b[..HEX] ==> a == b
  }

  /** Every suffixed tag of the registry names the digest it holds. */
  ghost predicate SuffixedTagsNameTheirDigest(reg: Registry, digests: set<Digest>) {
    forall t :: t in reg && Suffixed(t) ==> reg[t] in digests && reg[t][..HEX] == SuffixHex(t)
  }

  /** Every image to be migrated to a suffixed tag has the digest the suffix names. */
  ghost predicate SuffixedImagesNameTheirDigest(w: World, groups: seq<Group>, digests: set<Digest>) {
    forall i :: 0 <= i < |groups| && w.target(groups[i][0].reference).Some? && w.exported(groups[i]).Some? ==>
      && w.exported(groups[i]).value in digests
      && (Suffixed(w.target(groups[i][0].reference).value) ==>
            w.exported(groups[i]).value[..HEX] == SuffixHex(w.target(groups[i][0].reference).value))
  }

  lemma GroupPushesFresh(w: World, d: Durable, groups: seq<Group>, i: nat, digests: set<Digest>)
    requires i < |groups| && PrefixIdentifies(digests)
    requires SuffixedTagsNameTheirDigest(d.registry, digests) && SuffixedImagesNameTheirDigest(w, groups, digests)
    ensures PushesFresh(w, d, groups[i])
    ensures SuffixedTagsNameTheirDigest(AfterGroup(w, d, groups[i]).registry, digests)
  {
    hide Sources, Platforms, Put;
  }

  /** What a caller can check before the run: suffixed tags, in the registry and among the images, name
      their digests, and 12 characters identify a digest. Then the run re-points no tag at all. */
  lemma {:induction false} IdentifiedNamesNeverOverwrite(w: World, d: Durable, groups: seq<Group>, digests: set<Digest>)
    requires PrefixIdentifies(digests)
    requires SuffixedTagsNameTheirDigest(d.registry, digests) && SuffixedImagesNameTheirDigest(w, groups, digests)
    ensures NeverOverwrites(w, d, groups)
    decreases |groups|
  {
    hide Migrate, Put;
    if groups != [] {
      GroupPushesFresh(w, d, groups, 0, digests);
      IdentifiedNamesNeverOverwrite(w, AfterGroup(w, d, groups[0]), groups[1..], digests);
    }
  }

  /** A run that re-points nothing displaces nothing, so everything above holds of it. */
  lemma {:induction false} NeverOverwritesNeverDisplaces(w: World, d: Durable, groups: seq<Group>)
    requires NeverOverwrites(w, d, groups)
    ensures NeverDisplaces(w, d, groups)
  {
    hide Migrate, Put, NeverOverwrites, AfterGroups;
    forall i, k | 0 <= i < k < |groups| ensures !Displaces(DecisionOf(w, d, groups, k), DecisionOf(w, d, groups, i).record) {
      NeverOverwritesAt(w, d, groups, k);
      OneMoreGroup(w, d, groups, i);
      DecisionHonest(w, At(w, d, groups, i).images, At(w, d, groups, i).registry, groups[i]);
      TagsStay(w, d, groups, i + 1, k);
    }
  }

  // ----- a store the promise fails for -----

  const A: Digest := "aaaaaaaaaaaa"
  const B: Digest := "bbbbbbbbbbbb"
  const C: Digest := "cccccccccccc"
  const X := Target("app", "x")
  const X_ASIDE := Renamed(X, A)
  const X_ASIDE_TWICE := Renamed(X_ASIDE, C)

  const MISNAMED: Group := [Entry("c", "", C, None)]
  const PLAIN: Group := [Entry("d", "", A, None)]

  /** The image C already carries the tag A would take beside x, and x itself is taken. */
  const CLASH := World(
    (r: string) => true,
    (r: string, d: Digest) => false,
    (r: string) => Some(if r == "c" then X_ASIDE else X),
    (g: seq<Entry>) => if g == [] then None else Some(g[0].digest))

  const CLASH_START := Durable([], map[X := B])

  lemma ClashNames()
    ensures A != B && A != C && B != C
    ensures X != X_ASIDE && X != X_ASIDE_TWICE && X_ASIDE != X_ASIDE_TWICE
  {
    assert A[0] != B[0] && A[0] != C[0] && B[0] != C[0];
    assert A[..HEX][0] != C[..HEX][0];
  }

  /** C goes to its own tag; then A, whose tag x is taken, overwrites it. */
  lemma ClashFirstGroup()
    ensures AfterGroup(CLASH, CLASH_START, MISNAMED) == Durable([Outcome(MISNAMED, Migrated, Some(Place(X_ASIDE, C)))], map[X := B, X_ASIDE := C])
  {
    hide Sources, Platforms;
    ClashNames();
  }

  lemma ClashSecondGroup(images: seq<Record>)
    requires Lookup(images, "d").None?
    ensures AfterGroup(CLASH, Durable(images, map[X := B, X_ASIDE := C]), PLAIN).registry == map[X := B, X_ASIDE := A]
  {
    hide Sources, Platforms, Put;
    ClashNames();
  }

  /** C's record still says migrated, but its tag holds A, so a re-run copies C to a third tag. */
  lemma ClashRedo(images: seq<Record>)
    requires Lookup(images, "c") == Some(Outcome(MISNAMED, Migrated, Some(Place(X_ASIDE, C))))
    ensures AfterGroup(CLASH, Durable(images, map[X := B, X_ASIDE := A]), MISNAMED).registry == map[X := B, X_ASIDE := A, X_ASIDE_TWICE := C]
  {
    hide Sources, Platforms, Put;
    ClashNames();
    var reg: Registry := map[X := B, X_ASIDE := A];
    assert reg[X_ASIDE] == A && X_ASIDE_TWICE !in reg;
    assert !Finished(Lookup(images, "c"), reg, MISNAMED);
    assert Decide(CLASH, reg, MISNAMED) == Decision(Outcome(MISNAMED, RenamedAside, Some(Place(X_ASIDE_TWICE, C))), Some(Place(X_ASIDE_TWICE, C)));
  }

  lemma TwoGroups(w: World, d: Durable, a: Group, b: Group)
    ensures AfterGroups(w, d, [a, b]) == AfterGroup(w, AfterGroup(w, d, a), b)
  {
    hide Migrate, Put;
    assert [a, b][1..] == [b] && [b][1..] == [];
    assert AfterGroups(w, AfterGroup(w, d, a), [b]) == AfterGroups(w, AfterGroup(w, AfterGroup(w, d, a), b), []);
  }

  /** So a run stopped at its very end and resumed leaves a registry the clean run does not. */
  lemma MisnamedImageBreaksResume()
    ensures AfterGroups(CLASH, AfterCrashes(CLASH, CLASH_START, [MISNAMED, PLAIN], [Crash(2, false)]), [MISNAMED, PLAIN]).registry
            != AfterGroups(CLASH, CLASH_START, [MISNAMED, PLAIN]).registry
  {
    hide Migrate, Put;
    var groups := [MISNAMED, PLAIN];
    var d1 := AfterGroup(CLASH, CLASH_START, MISNAMED);
    var f := AfterGroup(CLASH, d1, PLAIN);
    TwoGroups(CLASH, CLASH_START, MISNAMED, PLAIN);
    ClashFirstGroup();
    ClashSecondGroup(d1.images);
    MigrateNames(CLASH, d1.images, d1.registry, PLAIN);
    LookupPut(d1.images, Migrate(CLASH, d1.images, d1.registry, PLAIN).record, "c");
    assert groups[..2] == groups;
    assert AfterCrashes(CLASH, AfterCrash(CLASH, CLASH_START, groups, Crash(2, false)), groups, []) == f;
    TwoGroups(CLASH, f, MISNAMED, PLAIN);
    ClashRedo(f.images);
    var f1 := AfterGroup(CLASH, f, MISNAMED);
    ClashNames();
    assert X_ASIDE_TWICE in AfterGroup(CLASH, f1, PLAIN).registry;
  }
}
