/**
 * Which dependents an incremental build lists (src/artifacts/index-builder.ts:509-787), as a law over whole histories:
 * those of every earlier build that the entry has survived since, however many runs, crashes and losses lie between.
 */
module IndexHistory {
  import opened Collections
  import opened DepGraph
  import opened IndexBuilder
  import opened IndexGraph
  import opened IndexRefinement

  /** A build, interrupted or not, that writes an entry for the file. */
  predicate Indexes(e: Event, p: string) {
    (e.Built? || e.Interrupted?) && p in e.listing && p in e.disk
  }

  /** An event after which the entry of a file is still the one parsed from that content. */
  predicate Keeps(e: Event, p: string, content: string) {
    e.ManifestLost? || (Indexes(e, p) && !e.force && e.disk[p].content == content)
  }

  /** The entry that event i wrote or reused for the file has not been dropped or parsed again since. */
  ghost predicate Lasts(es: seq<Event>, i: int, p: string) {
    0 <= i < |es| && Indexes(es[i], p) && forall j :: i < j < |es| ==> Keeps(es[j], p, es[i].disk[p].content)
  }

  /** The files that mention p at a build. */
  ghost function Mentions(tools: Tools, e: Event, p: string): set<string> {
    if (e.Built? || e.Interrupted?) && OnDisk(e.listing, e.disk)
    then Elements(Sources(NowLinks(tools, e.disk, e.listing), p)) else {}
  }

  ghost predicate MentionedSince(tools: Tools, es: seq<Event>, p: string, x: string) {
    exists i :: Lasts(es, i, p) && x in Mentions(tools, es[i], p)
  }

  ghost predicate Indexed(es: seq<Event>, p: string) {
    exists i :: Lasts(es, i, p)
  }

  /** What the stored index says of a file, read off the history. */
  ghost predicate Recorded(tools: Tools, es: seq<Event>, p: string, index: Index) {
    && (p in index <==> Indexed(es, p))
    && (forall i :: Lasts(es, i, p) ==> p in index && index[p].facts == FactsFor(tools, p, es[i].disk[p].content))
    && (p in index ==> forall x :: x in index[p].dependents <==> MentionedSince(tools, es, p, x))
  }

  lemma LastsPush(es: seq<Event>, e: Event, i: int, p: string)
    ensures Lasts(es + [e], i, p) <==>
            if i == |es| then Indexes(e, p) else Lasts(es, i, p) && Keeps(e, p, es[i].disk[p].content)
  {
    var more := es + [e];
    assert forall j :: 0 <= j < |es| ==> more[j] == es[j];
    assert more[|es|] == e;
  }

  lemma SamePast(tools: Tools, es: seq<Event>, e: Event, p: string, x: string)
    ensures MentionedSince(tools, es + [e], p, x) <==>
            || (exists i :: Lasts(es, i, p) && Keeps(e, p, es[i].disk[p].content) && x in Mentions(tools, es[i], p))
            || (Indexes(e, p) && x in Mentions(tools, e, p))
  {
    var more := es + [e];
    assert forall j :: 0 <= j < |es| ==> more[j] == es[j];
    assert more[|es|] == e;
    forall i: int ensures Lasts(more, i, p) <==>
                          if i == |es| then Indexes(e, p) else Lasts(es, i, p) && Keeps(e, p, es[i].disk[p].content)
    {
      LastsPush(es, e, i, p);
    }
    if Indexes(e, p) {
      assert Lasts(more, |es|, p);
    }
  }

  /** Nothing is recorded of a file after an event that drops its entry. */
  lemma Dropped(tools: Tools, es: seq<Event>, e: Event, p: string, index: Index)
    requires !Indexes(e, p) && !e.ManifestLost? && p !in index
    ensures Recorded(tools, es + [e], p, index)
  {
    forall i: int ensures !Lasts(es + [e], i, p) {
      LastsPush(es, e, i, p);
    }
  }

  lemma Unchanged(tools: Tools, es: seq<Event>, e: Event, p: string, index: Index)
    requires e.ManifestLost? && Recorded(tools, es, p, index)
    ensures Recorded(tools, es + [e], p, index)
  {
    var more := es + [e];
    assert forall j :: 0 <= j < |es| ==> more[j] == es[j];
    forall i: int ensures Lasts(more, i, p) <==> Lasts(es, i, p) {
      LastsPush(es, e, i, p);
    }
    forall x ensures MentionedSince(tools, more, p, x) <==> MentionedSince(tools, es, p, x) {
      SamePast(tools, es, e, p, x);
    }
    if Indexed(es, p) {
      var i :| Lasts(es, i, p);
      assert Lasts(more, i, p);
    }
  }

  /** What a build does to one entry, given whether it reuses it. */
  ghost predicate Rewrites(tools: Tools, e: Event, p: string, reused: bool, before: Index, after: Index) {
    && Indexes(e, p) && p in after && after[p].facts == FactsFor(tools, p, e.disk[p].content)
    && (reused ==> p in before)
    && Elements(after[p].dependents) ==
       (if reused && p in before then Elements(before[p].dependents) else {}) + Mentions(tools, e, p)
  }

  lemma Rewritten(tools: Tools, es: seq<Event>, e: Event, p: string, reused: bool, before: Index, after: Index)
    requires Recorded(tools, es, p, before) && Rewrites(tools, e, p, reused, before, after)
    requires forall i :: Lasts(es, i, p) ==> (Keeps(e, p, es[i].disk[p].content) <==> reused)
    ensures Recorded(tools, es + [e], p, after)
  {
    var more := es + [e];
    assert forall j :: 0 <= j < |es| ==> more[j] == es[j];
    LastsPush(es, e, |es|, p);
    forall i | Lasts(more, i, p) ensures after[p].facts == FactsFor(tools, p, more[i].disk[p].content) {
      LastsPush(es, e, i, p);
    }
    forall x ensures x in after[p].dependents <==> MentionedSince(tools, more, p, x) {
      SamePast(tools, es, e, p, x);
      assert x in after[p].dependents <==> x in Elements(after[p].dependents);
      if reused {
        assert x in before[p].dependents <==> x in Elements(before[p].dependents);
      }
    }
  }

  // ------------------------------------------------------------- one event further

  /** An entry is reused exactly when it was parsed from what the file holds. */
  lemma ReusedExactly(tools: Tools, world: World, texts: set<string>, store: Store, disk: Disk, p: string,
                      content: string)
    requires CollisionFree(tools, texts) && Consistent(world, texts, disk) && p in disk && content in texts
    requires Trusted(tools, world, texts, store)
    requires p in store.index && store.index[p].facts == FactsFor(tools, p, content)
    ensures ScanFile(tools, store.index, store.manifest, p, disk[p]).how != Reindexed <==> disk[p].content == content
  {
    assert disk[p].content == world(p, disk[p].stat.mtime, disk[p].stat.size);
  }

  lemma PastContent(world: World, texts: set<string>, es: seq<Event>, i: int, p: string)
    requires Lasts(es, i, p) && forall e :: e in es ==> Possible(world, texts, e)
    ensures es[i].disk[p].content in texts
  {
    assert Possible(world, texts, es[i]);
  }

  predicate Reuses(tools: Tools, e: Event, p: string, store: Store)
    requires Indexes(e, p)
  {
    !e.force && ScanFile(tools, store.index, store.manifest, p, e.disk[p]).how != Reindexed
  }

  lemma ReusedWhenKept(tools: Tools, world: World, texts: set<string>, es: seq<Event>, store: Store, e: Event,
                       p: string)
    requires CollisionFree(tools, texts) && Possible(world, texts, e) && Indexes(e, p)
    requires forall b :: b in es ==> Possible(world, texts, b)
    requires Trusted(tools, world, texts, store) && Recorded(tools, es, p, store.index)
    ensures forall i :: Lasts(es, i, p) ==> (Keeps(e, p, es[i].disk[p].content) <==> Reuses(tools, e, p, store))
  {
    forall i | Lasts(es, i, p) ensures Keeps(e, p, es[i].disk[p].content) <==> Reuses(tools, e, p, store) {
      PastContent(world, texts, es, i, p);
      ReusedExactly(tools, world, texts, store, e.disk, p, es[i].disk[p].content);
    }
  }

  lemma BuildRewrites(tools: Tools, cites: bool, world: World, texts: set<string>, store: Store, e: Event, p: string)
    requires CollisionFree(tools, texts) && Possible(world, texts, e) && Indexes(e, p)
    requires Trusted(tools, world, texts, store)
    ensures Rewrites(tools, e, p, Reuses(tools, e, p, store), store.index, After(tools, cites, store, e).index)
  {
    var o := Build(tools, e.force, cites, store, e.disk, e.listing);
    EmptyTrusted(tools, world, texts);
    DependentsWritten(tools, world, texts, e.force, cites, store, e.disk, e.listing, p);
    BuildKeepsTrust(tools, world, texts, e.force, cites, store, e.disk, e.listing);
    assert FactsOf(o.entries)[p] == FactsNow(tools, e.disk, e.listing)[p];
  }

  lemma BuildDrops(tools: Tools, cites: bool, world: World, texts: set<string>, store: Store, e: Event, p: string)
    requires (e.Built? || e.Interrupted?) && Possible(world, texts, e) && !Indexes(e, p)
    ensures p !in After(tools, cites, store, e).index
  {
  }

  lemma EventRecords(tools: Tools, cites: bool, world: World, texts: set<string>, es: seq<Event>, store: Store,
                     e: Event, p: string)
    requires CollisionFree(tools, texts) && Possible(world, texts, e)
    requires forall b :: b in es ==> Possible(world, texts, b)
    requires Trusted(tools, world, texts, store) && Recorded(tools, es, p, store.index)
    ensures Recorded(tools, es + [e], p, After(tools, cites, store, e).index)
  {
    var after := After(tools, cites, store, e).index;
    if e.ManifestLost? {
      Unchanged(tools, es, e, p, after);
    } else if !Indexes(e, p) {
      if !e.IndexLost? {
        BuildDrops(tools, cites, world, texts, store, e, p);
      }
      Dropped(tools, es, e, p, after);
    } else {
      BuildRewrites(tools, cites, world, texts, store, e, p);
      ReusedWhenKept(tools, world, texts, es, store, e, p);
      Rewritten(tools, es, e, p, Reuses(tools, e, p, store), store.index, after);
    }
  }

  /**
   * After every history: a file has an entry exactly when some build wrote one that has lasted; the entry is that of
   * the content it had then, and its dependents are the files that mentioned it at any build the entry has lasted from.
   */
  lemma {:induction false} HistoryRecorded(tools: Tools, cites: bool, world: World, texts: set<string>, es: seq<Event>,
                                           p: string)
    requires CollisionFree(tools, texts) && forall e :: e in es ==> Possible(world, texts, e)
    ensures Recorded(tools, es, p, History(tools, cites, world, texts, es).index)
  {
    if es == [] {
    } else {
      var init, last := es[..|es| - 1], es[|es| - 1];
      assert es == init + [last];
      assert Possible(world, texts, last);
      HistoryRecorded(tools, cites, world, texts, init, p);
      HistoryTrusted(tools, cites, world, texts, init);
      EventRecords(tools, cites, world, texts, init, History(tools, cites, world, texts, init), last, p);
    }
  }

  // ------------------------------------------------------------ the next build

  /** A build of the history whose mentions of p the next build still carries: p has kept that content. */
  ghost predicate StillCarried(es: seq<Event>, i: int, disk: Disk, p: string) {
    p in disk && Lasts(es, i, p) && es[i].disk[p].content == disk[p].content
  }

  /** Those that mention p now, and those carried over. */
  ghost predicate Listed(tools: Tools, es: seq<Event>, disk: Disk, listing: seq<string>, p: string, x: string)
    requires OnDisk(listing, disk)
  {
    || x in Elements(Sources(NowLinks(tools, disk, listing), p))
    || exists i :: StillCarried(es, i, disk, p) && x in Mentions(tools, es[i], p)
  }

  lemma ListedFromRecord(tools: Tools, es: seq<Event>, disk: Disk, listing: seq<string>, p: string, index: Index)
    requires OnDisk(listing, disk) && p in listing && Recorded(tools, es + [Built(false, disk, listing)], p, index)
    ensures p in index && forall x :: x in index[p].dependents <==> Listed(tools, es, disk, listing, p, x)
  {
    var e := Built(false, disk, listing);
    LastsPush(es, e, |es|, p);
    forall i: int ensures Lasts(es, i, p) && Keeps(e, p, es[i].disk[p].content) <==> StillCarried(es, i, disk, p) {
    }
    forall x ensures x in index[p].dependents <==> Listed(tools, es, disk, listing, p, x) {
      SamePast(tools, es, e, p, x);
    }
  }

  lemma BuildIsAfter(tools: Tools, cites: bool, store: Store, disk: Disk, listing: seq<string>)
    requires OnDisk(listing, disk)
    ensures After(tools, cites, store, Built(false, disk, listing)).index ==
            Build(tools, false, cites, store, disk, listing).entries
  {
  }

  lemma BuildRecords(tools: Tools, cites: bool, world: World, texts: set<string>, es: seq<Event>,
                     disk: Disk, listing: seq<string>, p: string)
    requires CollisionFree(tools, texts) && forall e :: e in es ==> Possible(world, texts, e)
    requires Consistent(world, texts, disk) && OnDisk(listing, disk)
    ensures Recorded(tools, es + [Built(false, disk, listing)], p,
                     Build(tools, false, cites, History(tools, cites, world, texts, es), disk, listing).entries)
  {
    var store := History(tools, cites, world, texts, es);
    HistoryTrusted(tools, cites, world, texts, es);
    HistoryRecorded(tools, cites, world, texts, es, p);
    EventRecords(tools, cites, world, texts, es, store, Built(false, disk, listing), p);
    BuildIsAfter(tools, cites, store, disk, listing);
  }

  /**
   * The dependents that an incremental build lists for a file: those that mention it now, and those that mentioned it
   * at any earlier build that the file's entry has lasted from, with the content the file still has.
   */
  lemma DependentsExactly(tools: Tools, cites: bool, world: World, texts: set<string>, es: seq<Event>,
                          disk: Disk, listing: seq<string>, p: string)
    requires CollisionFree(tools, texts) && forall e :: e in es ==> Possible(world, texts, e)
    requires Consistent(world, texts, disk) && OnDisk(listing, disk) && p in listing
    ensures var fast := Build(tools, false, cites, History(tools, cites, world, texts, es), disk, listing).entries;
            p in fast && forall x :: x in fast[p].dependents <==> Listed(tools, es, disk, listing, p, x)
  {
    BuildRecords(tools, cites, world, texts, es, disk, listing, p);
    ListedFromRecord(tools, es, disk, listing, p,
                     Build(tools, false, cites, History(tools, cites, world, texts, es), disk, listing).entries);
  }

  /** Nothing carried over has stopped mentioning the file. */
  ghost predicate NothingStale(tools: Tools, es: seq<Event>, disk: Disk, listing: seq<string>, p: string)
    requires OnDisk(listing, disk)
  {
    forall i :: StillCarried(es, i, disk, p) ==>
                  Mentions(tools, es[i], p) <= Elements(Sources(NowLinks(tools, disk, listing), p))
  }

  lemma AgreeWhenListed(tools: Tools, es: seq<Event>, disk: Disk, listing: seq<string>, p: string, deps: seq<string>)
    requires OnDisk(listing, disk) && forall x :: x in deps <==> Listed(tools, es, disk, listing, p, x)
    ensures Elements(deps) == Elements(Sources(NowLinks(tools, disk, listing), p)) <==>
            NothingStale(tools, es, disk, listing, p)
  {
    var now := Elements(Sources(NowLinks(tools, disk, listing), p));
    assert forall x :: x in Elements(deps) <==> Listed(tools, es, disk, listing, p, x);
    if Elements(deps) == now {
      forall i, x | StillCarried(es, i, disk, p) && x in Mentions(tools, es[i], p) ensures x in now {
        assert Listed(tools, es, disk, listing, p, x);
      }
    }
  }

  /** They are those of a forced build exactly when nothing carried over has stopped mentioning the file. */
  lemma DependentsAgreeExactly(tools: Tools, cites: bool, world: World, texts: set<string>, es: seq<Event>,
                               other: Store, disk: Disk, listing: seq<string>, p: string)
    requires CollisionFree(tools, texts) && forall e :: e in es ==> Possible(world, texts, e)
    requires Consistent(world, texts, disk) && OnDisk(listing, disk) && p in listing
    ensures var fast := Build(tools, false, cites, History(tools, cites, world, texts, es), disk, listing).entries;
            var full := Build(tools, true, cites, other, disk, listing).entries;
            && p in fast && p in full
            && (Elements(fast[p].dependents) == Elements(full[p].dependents) <==>
                NothingStale(tools, es, disk, listing, p))
  {
    DependentsExactly(tools, cites, world, texts, es, disk, listing, p);
    ForcedDependents(tools, cites, world, texts, other, disk, listing, p);
    AgreeWhenListed(tools, es, disk, listing, p,
                    Build(tools, false, cites, History(tools, cites, world, texts, es), disk,
                          listing).entries[p].dependents);
  }
}
