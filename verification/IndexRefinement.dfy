/**
 * The whole build, and why an incremental build may be trusted: over any history of edits, builds,
 * interrupted builds and lost files it writes what a forced build would write.
 */
module IndexRefinement {
  import opened Collections
  import opened DepGraph
  import opened IndexBuilder
  import opened IndexGraph

  /** What one build leaves on disk for the next. */
  datatype Store = Store(index: Index, manifest: Manifest)

  datatype Output = Output(entries: Index, tags: map<string, seq<string>>, graph: Graph,
                           manifest: Manifest, counts: Counts)

  function Deduplicated(entries: Index): Index {
    map p | p in entries :: entries[p].(dependents := Dedup(entries[p].dependents))
  }

  function Loaded(force: bool, store: Store): Store {
    if force then Store(map[], map[]) else store
  }

  /** Everything one build writes; `cites` says whether the graph extracts citation sidecars. */
  ghost function Build(tools: Tools, force: bool, cites: bool, store: Store, disk: Disk, listing: seq<string>): Output
    requires OnDisk(listing, disk)
  {
    var from := Loaded(force, store);
    var rows := ScanRows(tools, from.index, from.manifest, disk, listing);
    var keys := Dedup(listing);
    var known := FactsOf(EntriesOf(rows));
    var deps := DependencyLinks(keys, keys, known);
    Output(Deduplicated(WithDependents(EntriesOf(rows), deps)),
           TagIndexOf(Taggings(keys, known)),
           GraphOf(keys, deps + Citations(tools, cites, disk, keys)),
           ManifestOf(rows),
           Tally(tools, from.index, from.manifest, disk, listing))
  }

  function Citations(tools: Tools, cites: bool, disk: Disk, keys: seq<string>): seq<Link>
    requires OnDisk(keys, disk)
  {
    if cites then CitationLinks(tools, disk, RefToPath(tools, disk, keys), keys) else []
  }

  ghost predicate PathKeyed(index: Index) {
    forall p :: p in index ==> index[p].facts.path == p
  }

  lemma DedupKeys(entries: Index, listing: seq<string>)
    requires forall p :: p in entries <==> p in listing
    ensures entries.Keys == Elements(Dedup(listing))
  {
  }

  lemma ScanKeyed(tools: Tools, existing: Index, manifest: Manifest, disk: Disk, listing: seq<string>)
    requires OnDisk(listing, disk) && PathKeyed(existing)
    ensures Keyed(Dedup(listing), EntriesOf(ScanRows(tools, existing, manifest, disk, listing)))
  {
    var entries := EntriesOf(ScanRows(tools, existing, manifest, disk, listing));
    assert forall p :: p in entries <==> p in listing;
    DedupKeys(entries, listing);
  }

  lemma {:induction false} LinksOfEntryEndIn(keys: seq<string>, path: string, deps: seq<string>)
    requires path in keys
    ensures EndsIn(LinksOfEntry(keys, path, deps), Elements(keys))
  {
    if deps == [] {
    } else {
      LinksOfEntryEndIn(keys, path, deps[..|deps| - 1]);
    }
  }

  lemma {:induction false} DependencyLinksEndIn(keys: seq<string>, done: seq<string>, known: Known)
    requires forall k :: k in done ==> k in keys && k in known && known[k].path == k
    ensures EndsIn(DependencyLinks(keys, done, known), Elements(keys))
  {
    if done == [] {
    } else {
      var last := done[|done| - 1];
      DependencyLinksEndIn(keys, done[..|done| - 1], known);
      LinksOfEntryEndIn(keys, known[last].path, known[last].fields.dependencies);
    }
  }

  /** The entries with the dependents of the keys done so far deduplicated. */
  ghost predicate DoneFor(done: seq<string>, entries: Index, r: Index) {
    && r.Keys == entries.Keys
    && forall p :: p in entries ==>
         r[p] == if p in done then entries[p].(dependents := Dedup(entries[p].dependents)) else entries[p]
  }

  lemma DoneForPush(done: seq<string>, entries: Index, r: Index, p: string)
    requires DoneFor(done, entries, r) && p in entries
    ensures DoneFor(done + [p], entries, r[p := r[p].(dependents := Dedup(r[p].dependents))])
  {
    DedupOfDistinct(Dedup(entries[p].dependents));
  }

  method DeduplicateDependents(keys: seq<string>, entries: Index) returns (r: Index)
    requires entries.Keys == Elements(keys)
    ensures r == Deduplicated(entries)
  {
    r := entries;
    for i := 0 to |keys|
      invariant DoneFor(keys[..i], entries, r)
    {
      TakeNext(keys, i);
      var p := keys[i];
      assert p in Elements(keys);
      DoneForPush(keys[..i], entries, r, p);
      r := r[p := r[p].(dependents := Dedup(r[p].dependents))];
    }
    TakeAll(keys);
  }

  lemma ScannedLinksEndIn(keys: seq<string>, scanned: Index)
    requires Keyed(keys, scanned)
    ensures EndsIn(DependencyLinks(keys, keys, FactsOf(scanned)), Elements(keys))
  {
    DependencyLinksEndIn(keys, keys, FactsOf(scanned));
  }

  /** The fourth phase, which only some graphs have. */
  method AddCitations(tools: Tools, cites: bool, disk: Disk, keys: seq<string>, graph: Graph, ghost links: seq<Link>)
    returns (depGraph: Graph)
    requires OnDisk(keys, disk)
    requires graph == GraphOf(keys, links) && EndsIn(links, Elements(keys))
    ensures depGraph == GraphOf(keys, links + Citations(tools, cites, disk, keys))
  {
    if cites {
      depGraph := AddCitationEdges(tools, disk, keys, graph, links);
    } else {
      AppendNothing(links);
      depGraph := graph;
    }
  }

  /** buildIndex. */
  method BuildIndex(tools: Tools, force: bool, cites: bool, store: Store, disk: Disk, listing: seq<string>)
    returns (o: Output)
    requires OnDisk(listing, disk) && PathKeyed(store.index)
    ensures o == Build(tools, force, cites, store, disk, listing)
  {
    var from := Loaded(force, store);
    assert PathKeyed(from.index);
    var keys, scanned, nextManifest, counts := Scan(tools, from.index, from.manifest, disk, listing);
    ScanKeyed(tools, from.index, from.manifest, disk, listing);
    ScannedLinksEndIn(keys, scanned);
    var tagIndex := BuildTagIndex(keys, scanned);
    var depGraph, entries := BuildDependencyGraph(keys, scanned);
    ghost var deps := DependencyLinks(keys, keys, FactsOf(scanned));
    depGraph := AddCitations(tools, cites, disk, keys, depGraph, deps);
    entries := DeduplicateDependents(keys, entries);
    o := Output(entries, tagIndex, depGraph, nextManifest, counts);
  }

  // ------------------------------------------------- what history guarantees

  /** The content a path had when it showed a given modification time and size. */
  type World = (string, string, nat) -> string

  /** The texts that ever occur have different checksums. */
  ghost predicate CollisionFree(tools: Tools, texts: set<string>) {
    forall a, b :: a in texts && b in texts && tools.checksum(a) == tools.checksum(b) ==> a == b
  }

  /** Equal stat means equal content: a disk shows only what the world recorded. */
  ghost predicate Consistent(world: World, texts: set<string>, disk: Disk) {
    forall p :: p in disk ==>
      && disk[p].content in texts
      && disk[p].content == world(p, disk[p].stat.mtime, disk[p].stat.size)
  }

  function FactsFor(tools: Tools, p: string, content: string): Facts {
    Facts(p, tools.extract(p, content), tools.checksum(content))
  }

  ghost predicate Genuine(tools: Tools, texts: set<string>, p: string, facts: Facts) {
    exists c :: c in texts && facts == FactsFor(tools, p, c)
  }

  /** Every stored entry was parsed from some text that occurred at its path. */
  ghost predicate GenuineIndex(tools: Tools, texts: set<string>, index: Index) {
    forall p :: p in index ==> Genuine(tools, texts, p, index[p].facts)
  }

  /** Every manifest entry records the checksum of what its stat stood for. */
  ghost predicate TrueManifest(tools: Tools, world: World, manifest: Manifest) {
    forall p :: p in manifest ==>
      manifest[p].checksum == tools.checksum(world(p, manifest[p].mtime, manifest[p].size))
  }

  ghost predicate Trusted(tools: Tools, world: World, texts: set<string>, store: Store) {
    GenuineIndex(tools, texts, store.index) && TrueManifest(tools, world, store.manifest)
  }

  /** The heart of it: whichever of the three ways a file is handled, its facts are those of its content. */
  lemma ScanFileIsParse(tools: Tools, world: World, texts: set<string>, store: Store, p: string, disk: Disk)
    requires CollisionFree(tools, texts) && Consistent(world, texts, disk) && p in disk
    requires Trusted(tools, world, texts, store)
    ensures var row := ScanFile(tools, store.index, store.manifest, p, disk[p]);
            && row.entry.facts == FactsFor(tools, p, disk[p].content)
            && row.manifest.checksum == tools.checksum(world(p, row.manifest.mtime, row.manifest.size))
  {
    var row := ScanFile(tools, store.index, store.manifest, p, disk[p]);
    if row.how != Reindexed {
      var c :| c in texts && store.index[p].facts == FactsFor(tools, p, c);
    }
  }

  function FactsNow(tools: Tools, disk: Disk, listing: seq<string>): Known
    requires OnDisk(listing, disk)
  {
    map p | p in listing :: FactsFor(tools, p, disk[p].content)
  }

  lemma ScanIsParse(tools: Tools, world: World, texts: set<string>, store: Store, disk: Disk, listing: seq<string>)
    requires CollisionFree(tools, texts) && Consistent(world, texts, disk) && OnDisk(listing, disk)
    requires Trusted(tools, world, texts, store)
    ensures FactsOf(EntriesOf(ScanRows(tools, store.index, store.manifest, disk, listing))) ==
            FactsNow(tools, disk, listing)
    ensures TrueManifest(tools, world, ManifestOf(ScanRows(tools, store.index, store.manifest, disk, listing)))
  {
    forall p | p in listing
      ensures var row := ScanFile(tools, store.index, store.manifest, p, disk[p]);
              && row.entry.facts == FactsFor(tools, p, disk[p].content)
              && row.manifest.checksum == tools.checksum(world(p, row.manifest.mtime, row.manifest.size))
    {
      ScanFileIsParse(tools, world, texts, store, p, disk);
    }
  }

  lemma FactsKept(entries: Index, links: seq<Link>)
    ensures FactsOf(Deduplicated(WithDependents(entries, links))) == FactsOf(entries)
  {
  }

  lemma EmptyTrusted(tools: Tools, world: World, texts: set<string>)
    ensures Trusted(tools, world, texts, Store(map[], map[]))
  {
  }

  /** A build keeps the store trustworthy, whichever of its two files reach the disk. */
  lemma BuildKeepsTrust(tools: Tools, world: World, texts: set<string>, force: bool, cites: bool,
                        store: Store, disk: Disk, listing: seq<string>)
    requires CollisionFree(tools, texts) && Consistent(world, texts, disk) && OnDisk(listing, disk)
    requires Trusted(tools, world, texts, store)
    ensures var o := Build(tools, force, cites, store, disk, listing);
            && FactsOf(o.entries) == FactsNow(tools, disk, listing)
            && GenuineIndex(tools, texts, o.entries)
            && TrueManifest(tools, world, o.manifest)
  {
    var from := Loaded(force, store);
    EmptyTrusted(tools, world, texts);
    ScanIsParse(tools, world, texts, from, disk, listing);
    var o := Build(tools, force, cites, store, disk, listing);
    var keys := Dedup(listing);
    var scanned := EntriesOf(ScanRows(tools, from.index, from.manifest, disk, listing));
    FactsKept(scanned, DependencyLinks(keys, keys, FactsOf(scanned)));
    forall p | p in o.entries ensures Genuine(tools, texts, p, o.entries[p].facts) {
      assert p in FactsOf(o.entries);
      assert FactsNow(tools, disk, listing)[p] == FactsFor(tools, p, disk[p].content);
    }
  }

  // -------------------------------------------------------------- histories

  /**
   * What can happen to the stored files between builds. An interrupted build has written the
   * metadata but not yet the manifest; a missing or malformed file is read as empty.
   */
  datatype Event =
    | Built(force: bool, disk: Disk, listing: seq<string>)
    | Interrupted(force: bool, disk: Disk, listing: seq<string>)
    | IndexLost
    | ManifestLost

  ghost predicate Possible(world: World, texts: set<string>, e: Event) {
    (e.Built? || e.Interrupted?) ==> Consistent(world, texts, e.disk) && OnDisk(e.listing, e.disk)
  }

  ghost function After(tools: Tools, cites: bool, store: Store, e: Event): Store
    requires (e.Built? || e.Interrupted?) ==> OnDisk(e.listing, e.disk)
  {
    match e
    case Built(force, disk, listing) =>
      var o := Build(tools, force, cites, store, disk, listing);
      Store(o.entries, o.manifest)
    case Interrupted(force, disk, listing) =>
      Store(Build(tools, force, cites, store, disk, listing).entries, store.manifest)
    case IndexLost => Store(map[], store.manifest)
    case ManifestLost => Store(store.index, map[])
  }

  ghost function History(tools: Tools, cites: bool, world: World, texts: set<string>, es: seq<Event>): Store
    requires forall e :: e in es ==> Possible(world, texts, e)
  {
    if es == [] then Store(map[], map[])
    else
      var before := History(tools, cites, world, texts, es[..|es| - 1]);
      assert Possible(world, texts, es[|es| - 1]);
      After(tools, cites, before, es[|es| - 1])
  }

  lemma {:induction false} HistoryTrusted(tools: Tools, cites: bool, world: World, texts: set<string>, es: seq<Event>)
    requires CollisionFree(tools, texts) && forall e :: e in es ==> Possible(world, texts, e)
    ensures Trusted(tools, world, texts, History(tools, cites, world, texts, es))
  {
    if es == [] {
    } else {
      var init := es[..|es| - 1];
      HistoryTrusted(tools, cites, world, texts, init);
      var last := es[|es| - 1];
      assert Possible(world, texts, last);
      if last.Built? || last.Interrupted? {
        BuildKeepsTrust(tools, world, texts, last.force, cites, History(tools, cites, world, texts, init),
                        last.disk, last.listing);
      }
    }
  }

  lemma TrustedIsKeyed(tools: Tools, world: World, texts: set<string>, store: Store)
    requires Trusted(tools, world, texts, store)
    ensures PathKeyed(store.index)
  {
    forall p | p in store.index ensures store.index[p].facts.path == p {
      assert Genuine(tools, texts, p, store.index[p].facts);
    }
  }

  /** What a stored entry carries over into a build that reuses it. */
  ghost function Carried(tools: Tools, store: Store, disk: Disk, p: string): set<string>
    requires p in disk
  {
    if ScanFile(tools, store.index, store.manifest, p, disk[p]).how == Reindexed then {}
    else Elements(store.index[p].dependents)
  }

  ghost predicate SameContent(a: Output, b: Output) {
    && FactsOf(a.entries) == FactsOf(b.entries)
    && a.tags == b.tags
    && a.graph == b.graph
  }

  /**
   * The refinement: after any history, an incremental build of the files at hand writes the same
   * entry facts, tag index and graph as a forced build of them, whatever that one starts from.
   * Both builds may be run as the code runs them (PathKeyed).
   */
  lemma IncrementalRefinesForced(tools: Tools, cites: bool, world: World, texts: set<string>, es: seq<Event>,
                                 other: Store, disk: Disk, listing: seq<string>)
    requires CollisionFree(tools, texts) && forall e :: e in es ==> Possible(world, texts, e)
    requires Consistent(world, texts, disk) && OnDisk(listing, disk)
    ensures var store := History(tools, cites, world, texts, es);
            && PathKeyed(store.index)
            && SameContent(Build(tools, false, cites, store, disk, listing),
                           Build(tools, true, cites, other, disk, listing))
  {
    var store := History(tools, cites, world, texts, es);
    HistoryTrusted(tools, cites, world, texts, es);
    TrustedIsKeyed(tools, world, texts, store);
    EmptyTrusted(tools, world, texts);
    ScanIsParse(tools, world, texts, store, disk, listing);
    ScanIsParse(tools, world, texts, Store(map[], map[]), disk, listing);
    BuildKeepsTrust(tools, world, texts, false, cites, store, disk, listing);
    ForcedIgnoresStore(tools, cites, other, disk, listing);
    BuildKeepsTrust(tools, world, texts, true, cites, Store(map[], map[]), disk, listing);
  }

  lemma ForcedIgnoresStore(tools: Tools, cites: bool, store: Store, disk: Disk, listing: seq<string>)
    requires OnDisk(listing, disk)
    ensures Build(tools, true, cites, store, disk, listing) ==
            Build(tools, true, cites, Store(map[], map[]), disk, listing)
  {
  }

  // -------------------------------------------------------------- dependents

  function NowLinks(tools: Tools, disk: Disk, listing: seq<string>): seq<Link>
    requires OnDisk(listing, disk)
  {
    DependencyLinks(Dedup(listing), Dedup(listing), FactsNow(tools, disk, listing))
  }

  lemma DedupElements(s: seq<string>)
    ensures Elements(Dedup(s)) == Elements(s)
  {
  }

  lemma DependentsOfEntry(scanned: Index, links: seq<Link>, p: string)
    requires p in scanned
    ensures var deps := Deduplicated(WithDependents(scanned, links))[p].dependents;
            && Distinct(deps)
            && Elements(deps) == Elements(scanned[p].dependents) + Elements(Sources(links, p))
  {
    DedupElements(scanned[p].dependents + Sources(links, p));
  }

  lemma ScannedDependents(tools: Tools, store: Store, disk: Disk, listing: seq<string>, p: string)
    requires OnDisk(listing, disk) && p in listing
    ensures var scanned := EntriesOf(ScanRows(tools, store.index, store.manifest, disk, listing));
            p in scanned && Elements(scanned[p].dependents) == Carried(tools, store, disk, p)
  {
  }

  lemma DependentsWritten(tools: Tools, world: World, texts: set<string>, force: bool, cites: bool,
                          store: Store, disk: Disk, listing: seq<string>, p: string)
    requires CollisionFree(tools, texts) && Consistent(world, texts, disk) && OnDisk(listing, disk)
    requires Trusted(tools, world, texts, Loaded(force, store)) && p in listing
    ensures var full := Build(tools, force, cites, store, disk, listing).entries;
            && p in full
            && Distinct(full[p].dependents)
            && Elements(full[p].dependents) ==
               Carried(tools, Loaded(force, store), disk, p) + Elements(Sources(NowLinks(tools, disk, listing), p))
  {
    var from := Loaded(force, store);
    ScanIsParse(tools, world, texts, from, disk, listing);
    ScannedDependents(tools, from, disk, listing, p);
    DependentsOfEntry(EntriesOf(ScanRows(tools, from.index, from.manifest, disk, listing)),
                      NowLinks(tools, disk, listing), p);
  }

  /**
   * The one field that is not refreshed: a reused entry keeps its old dependents. An incremental
   * build lists, without repeats, the dependents a forced build lists and those carried over.
   */
  lemma DependentsAccumulate(tools: Tools, cites: bool, world: World, texts: set<string>, es: seq<Event>,
                             other: Store, disk: Disk, listing: seq<string>, p: string)
    requires CollisionFree(tools, texts) && forall e :: e in es ==> Possible(world, texts, e)
    requires Consistent(world, texts, disk) && OnDisk(listing, disk) && p in listing
    ensures var store := History(tools, cites, world, texts, es);
            var fast := Build(tools, false, cites, store, disk, listing).entries;
            var full := Build(tools, true, cites, other, disk, listing).entries;
            && p in fast && p in full
            && Distinct(fast[p].dependents) && Distinct(full[p].dependents)
            && Elements(fast[p].dependents) == Elements(full[p].dependents) + Carried(tools, store, disk, p)
            && (Elements(fast[p].dependents) == Elements(full[p].dependents) <==>
                Carried(tools, store, disk, p) <= Elements(full[p].dependents))
  {
    HistoryTrusted(tools, cites, world, texts, es);
    var store := History(tools, cites, world, texts, es);
    DependentsCompared(tools, cites, world, texts, store, other, disk, listing, p);
    UnionAbsorbs(Elements(Build(tools, true, cites, other, disk, listing).entries[p].dependents),
                 Carried(tools, store, disk, p));
  }

  lemma UnionAbsorbs(a: set<string>, b: set<string>)
    ensures a + b == a <==> b <= a
  {
    if a + b == a {
      assert b <= a + b;
    }
  }

  lemma DependentsCompared(tools: Tools, cites: bool, world: World, texts: set<string>, store: Store,
                           other: Store, disk: Disk, listing: seq<string>, p: string)
    requires CollisionFree(tools, texts) && Trusted(tools, world, texts, store)
    requires Consistent(world, texts, disk) && OnDisk(listing, disk) && p in listing
    ensures var fast := Build(tools, false, cites, store, disk, listing).entries;
            var full := Build(tools, true, cites, other, disk, listing).entries;
            && p in fast && p in full
            && Distinct(fast[p].dependents) && Distinct(full[p].dependents)
            && Elements(full[p].dependents) == Elements(Sources(NowLinks(tools, disk, listing), p))
            && Elements(fast[p].dependents) == Elements(full[p].dependents) + Carried(tools, store, disk, p)
  {
    DependentsWritten(tools, world, texts, false, cites, store, disk, listing, p);
    ForcedDependents(tools, cites, world, texts, other, disk, listing, p);
  }

  lemma ForcedDependents(tools: Tools, cites: bool, world: World, texts: set<string>,
                         store: Store, disk: Disk, listing: seq<string>, p: string)
    requires CollisionFree(tools, texts) && Consistent(world, texts, disk) && OnDisk(listing, disk) && p in listing
    ensures var full := Build(tools, true, cites, store, disk, listing).entries;
            && p in full
            && Distinct(full[p].dependents)
            && Elements(full[p].dependents) == Elements(Sources(NowLinks(tools, disk, listing), p))
  {
    EmptyTrusted(tools, world, texts);
    DependentsWritten(tools, world, texts, true, cites, store, disk, listing, p);
    assert Carried(tools, Store(map[], map[]), disk, p) == {};
  }

  /** An incremental build that keeps a dependent of p, beside a forced one that finds p has none. */
  ghost predicate KeepsStale(tools: Tools, cites: bool, store: Store, other: Store, disk: Disk, listing: seq<string>,
                             p: string, gone: string)
    requires OnDisk(listing, disk)
  {
    var fast := Build(tools, false, cites, store, disk, listing).entries;
    var full := Build(tools, true, cites, other, disk, listing).entries;
    && p in fast && gone in fast[p].dependents
    && p in full && full[p].dependents == []
  }

  lemma StaleFromStore(tools: Tools, cites: bool, world: World, texts: set<string>, store: Store, other: Store,
                       disk: Disk, listing: seq<string>, p: string, gone: string)
    requires CollisionFree(tools, texts) && Trusted(tools, world, texts, store)
    requires Consistent(world, texts, disk) && OnDisk(listing, disk) && p in listing
    requires gone in Carried(tools, store, disk, p)
    requires forall q :: q in listing ==>
               forall d :: d in tools.extract(q, disk[q].content).dependencies ==> !EndsWith(p, d)
    ensures KeepsStale(tools, cites, store, other, disk, listing, p, gone)
  {
    DependentsCompared(tools, cites, world, texts, store, other, disk, listing, p);
    NoSourcesFor(Dedup(listing), Dedup(listing), FactsNow(tools, disk, listing), p);
    NoElements(Build(tools, true, cites, other, disk, listing).entries[p].dependents);
  }

  /**
   * So the field can be wrong: when the only file that mentioned p stops mentioning it while p
   * itself is unchanged, the old dependent stays in the incremental index.
   */
  lemma StaleDependent(tools: Tools, cites: bool, world: World, texts: set<string>, es: seq<Event>,
                       other: Store, disk: Disk, listing: seq<string>, p: string, gone: string)
    requires CollisionFree(tools, texts) && forall e :: e in es ==> Possible(world, texts, e)
    requires Consistent(world, texts, disk) && OnDisk(listing, disk) && p in listing
    requires gone in Carried(tools, History(tools, cites, world, texts, es), disk, p)
    requires forall q :: q in listing ==>
               forall d :: d in tools.extract(q, disk[q].content).dependencies ==> !EndsWith(p, d)
    ensures KeepsStale(tools, cites, History(tools, cites, world, texts, es), other, disk, listing, p, gone)
  {
    HistoryTrusted(tools, cites, world, texts, es);
    StaleFromStore(tools, cites, world, texts, History(tools, cites, world, texts, es), other, disk, listing, p, gone);
  }

  lemma NoElements(s: seq<string>)
    ensures Elements(s) == {} <==> s == []
  {
    if s != [] {
      assert s[0] in Elements(s);
    }
  }

  const A := "a.md"
  const B := "b.md"

  function MentionedIn(content: string): Fields {
    Fields("", "", "", [], "", if content == "" then [] else [content], "")
  }

  /** A project of two files, "a.md" and "b.md": "a.md" mentions "b.md", then is emptied. */
  ghost predicate TwoFiles(tools: Tools, world: World, before: Disk, now: Disk, listing: seq<string>) {
    && tools == Tools(s => s, (p, c) => MentionedIn(c), c => None, c => None, c => None)
    && world == ((p: string, mtime: string, size: nat) => if size == 4 then B else "")
    && listing == [A, B]
    && before == map[A := File(B, Stat("t1", 4, "t0")), B := File("", Stat("t1", 0, "t0"))]
    && now == map[A := File("", Stat("t2", 0, "t0")), B := File("", Stat("t1", 0, "t0"))]
  }

  lemma LinksBefore(tools: Tools, world: World, before: Disk, now: Disk, listing: seq<string>)
    requires TwoFiles(tools, world, before, now, listing)
    ensures Sources(NowLinks(tools, before, listing), B) == [A]
  {
    DedupOfDistinct(listing);
    var known := FactsNow(tools, before, listing);
    assert known[A].fields.dependencies == [B] && known[B].fields.dependencies == [];
    assert Resolve(listing, B) == Some(B) by {
      assert listing[1..][0] == B;
      assert A[0] != B[0];
    }
    assert [B][..0] == [] && listing[..1] == [A] && listing[..1][..0] == [];
    assert LinksOfEntry(listing, A, [B]) == [Link(A, B, DEPENDS_ON)];
    assert DependencyLinks(listing, [A], known) == [Link(A, B, DEPENDS_ON)];
    assert [Link(A, B, DEPENDS_ON)][..0] == [];
  }

  lemma OneBuild(tools: Tools, cites: bool, world: World, texts: set<string>, e: Event)
    requires Possible(world, texts, e)
    ensures History(tools, cites, world, texts, [e]) == After(tools, cites, Store(map[], map[]), e)
  {
    assert [e][..0] == [];
    assert History(tools, cites, world, texts, []) == Store(map[], map[]);
  }

  lemma CarriedWhenUnchanged(tools: Tools, store: Store, before: Disk, now: Disk, listing: seq<string>, p: string,
                             d: string)
    requires OnDisk(listing, before) && p in listing && p in now && now[p] == before[p]
    requires var o := Build(tools, false, false, store, before, listing);
             p in o.entries && d in o.entries[p].dependents
    ensures var o := Build(tools, false, false, store, before, listing);
            d in Carried(tools, Store(o.entries, o.manifest), now, p)
  {
    RowWritten(tools, false, false, store, before, listing, p);
    var o := Build(tools, false, false, store, before, listing);
    SkippedNextTime(tools, store, o.entries, o.manifest, p, now[p]);
  }

  lemma TwoFilesPossible(tools: Tools, world: World, before: Disk, now: Disk, listing: seq<string>)
    requires TwoFiles(tools, world, before, now, listing)
    ensures CollisionFree(tools, {B, ""}) && OnDisk(listing, before) && OnDisk(listing, now)
    ensures Consistent(world, {B, ""}, before) && Consistent(world, {B, ""}, now)
    ensures B in listing && now[B] == before[B]
    ensures forall q :: q in listing ==> tools.extract(q, now[q].content).dependencies == []
  {
  }

  lemma WrittenBefore(tools: Tools, world: World, texts: set<string>, store: Store, disk: Disk, listing: seq<string>,
                      p: string, d: string)
    requires CollisionFree(tools, texts) && Consistent(world, texts, disk) && OnDisk(listing, disk) && p in listing
    requires Trusted(tools, world, texts, store)
    requires d in Sources(NowLinks(tools, disk, listing), p)
    ensures var written := Build(tools, false, false, store, disk, listing).entries;
            p in written && d in written[p].dependents
  {
    DependentsWritten(tools, world, texts, false, false, store, disk, listing, p);
    var written := Build(tools, false, false, store, disk, listing).entries;
    assert d in Elements(Sources(NowLinks(tools, disk, listing), p));
    assert d in Elements(written[p].dependents);
  }

  lemma CarriedNow(tools: Tools, world: World, texts: set<string>, store: Store, before: Disk, now: Disk,
                   listing: seq<string>, p: string, d: string)
    requires CollisionFree(tools, texts) && Consistent(world, texts, before) && OnDisk(listing, before) && p in listing
    requires Trusted(tools, world, texts, store)
    requires p in now && now[p] == before[p]
    requires d in Sources(NowLinks(tools, before, listing), p)
    ensures d in Carried(tools, After(tools, false, store, Built(false, before, listing)), now, p)
  {
    WrittenBefore(tools, world, texts, store, before, listing, p, d);
    CarriedWhenUnchanged(tools, store, before, now, listing, p, d);
  }

  lemma CarriedAfterOneBuild(tools: Tools, world: World, texts: set<string>, before: Disk, now: Disk,
                             listing: seq<string>, e: Event, p: string, d: string)
    requires CollisionFree(tools, texts) && OnDisk(listing, before) && Consistent(world, texts, before)
    requires p in listing && p in now && now[p] == before[p]
    requires d in Sources(NowLinks(tools, before, listing), p)
    requires e == Built(false, before, listing)
    ensures d in Carried(tools, History(tools, false, world, texts, [e]), now, p)
  {
    OneBuild(tools, false, world, texts, e);
    EmptyTrusted(tools, world, texts);
    CarriedNow(tools, world, texts, Store(map[], map[]), before, now, listing, p, d);
  }

  lemma NothingMentioned(tools: Tools, disk: Disk, listing: seq<string>, p: string)
    requires OnDisk(listing, disk)
    requires forall q :: q in listing ==> tools.extract(q, disk[q].content).dependencies == []
    ensures forall q :: q in listing ==>
              forall d :: d in tools.extract(q, disk[q].content).dependencies ==> !EndsWith(p, d)
  {
  }

  /** Files no one of which mentions p. */
  ghost predicate NoMention(tools: Tools, world: World, texts: set<string>, now: Disk, listing: seq<string>,
                            p: string)
  {
    && CollisionFree(tools, texts) && Consistent(world, texts, now) && OnDisk(listing, now) && p in listing
    && forall q :: q in listing ==> forall d :: d in tools.extract(q, now[q].content).dependencies ==> !EndsWith(p, d)
  }

  lemma GoesStale(tools: Tools, world: World, texts: set<string>, e: Event, other: Store, now: Disk,
                  listing: seq<string>, p: string, gone: string)
    requires NoMention(tools, world, texts, now, listing, p) && Possible(world, texts, e)
    requires gone in Carried(tools, History(tools, false, world, texts, [e]), now, p)
    ensures KeepsStale(tools, false, History(tools, false, world, texts, [e]), other, now, listing, p, gone)
  {
    StaleDependent(tools, false, world, texts, [e], other, now, listing, p, gone);
  }

  lemma TwoFilesCarry(tools: Tools, world: World, before: Disk, now: Disk, listing: seq<string>, texts: set<string>,
                      e: Event)
    requires TwoFiles(tools, world, before, now, listing) && texts == {B, ""} && e == Built(false, before, listing)
    ensures Possible(world, texts, e) && A in Carried(tools, History(tools, false, world, texts, [e]), now, B)
  {
    TwoFilesPossible(tools, world, before, now, listing);
    LinksBefore(tools, world, before, now, listing);
    CarriedAfterOneBuild(tools, world, texts, before, now, listing, e, B, A);
  }

  lemma TwoFilesMentionNothing(tools: Tools, world: World, before: Disk, now: Disk, listing: seq<string>,
                               texts: set<string>)
    requires TwoFiles(tools, world, before, now, listing) && texts == {B, ""}
    ensures NoMention(tools, world, texts, now, listing, B)
  {
    TwoFilesPossible(tools, world, before, now, listing);
    NothingMentioned(tools, now, listing, B);
  }

  /** The stale dependent does occur: one build, one edit, one incremental build. */
  lemma StaleDependentOccurs(tools: Tools, world: World, before: Disk, now: Disk, listing: seq<string>,
                             texts: set<string>, e: Event, other: Store)
    requires TwoFiles(tools, world, before, now, listing) && texts == {B, ""} && e == Built(false, before, listing)
    ensures Possible(world, texts, e) && OnDisk(listing, now)
    ensures KeepsStale(tools, false, History(tools, false, world, texts, [e]), other, now, listing, B, A)
  {
    TwoFilesMentionNothing(tools, world, before, now, listing, texts);
    TwoFilesCarry(tools, world, before, now, listing, texts, e);
    GoesStale(tools, world, texts, e, other, now, listing, B, A);
  }

  lemma {:induction false} NoSourcesFor(keys: seq<string>, done: seq<string>, known: Known, p: string)
    requires forall k :: k in done ==> k in known
    requires forall k :: k in done ==> forall d :: d in known[k].fields.dependencies ==> !EndsWith(p, d)
    ensures Sources(DependencyLinks(keys, done, known), p) == []
  {
    if done == [] {
    } else {
      var last := done[|done| - 1];
      var init := done[..|done| - 1];
      NoSourcesFor(keys, init, known, p);
      NoSourcesInEntry(keys, known[last].path, known[last].fields.dependencies, p);
      SourcesAppend(DependencyLinks(keys, init, known),
                    LinksOfEntry(keys, known[last].path, known[last].fields.dependencies), p);
    }
  }

  lemma {:induction false} NoSourcesInEntry(keys: seq<string>, path: string, deps: seq<string>, p: string)
    requires forall d :: d in deps ==> !EndsWith(p, d)
    ensures Sources(LinksOfEntry(keys, path, deps), p) == []
  {
    if deps == [] {
    } else {
      var last := deps[|deps| - 1];
      NoSourcesInEntry(keys, path, deps[..|deps| - 1], p);
      SourcesAppend(LinksOfEntry(keys, path, deps[..|deps| - 1]), MentionLinks(keys, path, last), p);
      assert MentionLinks(keys, path, last) != [] ==> EndsWith(MentionLinks(keys, path, last)[0].target, last);
    }
  }

  lemma {:induction false} SourcesAppend(a: seq<Link>, b: seq<Link>, p: string)
    ensures Sources(a + b, p) == Sources(a, p) + Sources(b, p)
  {
    if b == [] {
      AppendNothing(a);
    } else {
      assert (a + b)[..|a + b| - 1] == a + b[..|b| - 1];
      SourcesAppend(a, b[..|b| - 1], p);
    }
  }

  // ------------------------------------------------------------- fast path

  /** Building again with nothing changed reads no file: every file is skipped on its stat. */
  lemma SecondBuildReadsNothing(tools: Tools, force: bool, cites: bool, store: Store, disk: Disk, listing: seq<string>)
    requires OnDisk(listing, disk)
    ensures var o := Build(tools, force, cites, store, disk, listing);
            var again := Build(tools, false, cites, Store(o.entries, o.manifest), disk, listing);
            again.counts == Counts(|listing|, 0, 0, 0, 0, |listing|)
  {
    var from := Loaded(force, store);
    var o := Build(tools, force, cites, store, disk, listing);
    forall p | p in listing ensures ScanFile(tools, o.entries, o.manifest, p, disk[p]).how == StatSkipped {
      RowWritten(tools, force, cites, store, disk, listing, p);
      SkippedNextTime(tools, from, o.entries, o.manifest, p, disk[p]);
    }
    AllSkipped(tools, o.entries, o.manifest, disk, listing);
  }

  lemma SkippedNextTime(tools: Tools, from: Store, index: Index, manifest: Manifest, p: string, file: File)
    requires p in index && p in manifest
    requires var row := ScanFile(tools, from.index, from.manifest, p, file);
             index[p].facts == row.entry.facts && manifest[p] == row.manifest
    ensures ScanFile(tools, index, manifest, p, file).how == StatSkipped
  {
  }

  lemma RowWritten(tools: Tools, force: bool, cites: bool, store: Store, disk: Disk, listing: seq<string>, p: string)
    requires OnDisk(listing, disk) && p in listing
    ensures var from := Loaded(force, store);
            var row := ScanFile(tools, from.index, from.manifest, p, disk[p]);
            var o := Build(tools, force, cites, store, disk, listing);
            && p in o.entries && o.entries[p].facts == row.entry.facts
            && p in o.manifest && o.manifest[p] == row.manifest
  {
    var from := Loaded(force, store);
    var scanned := EntriesOf(ScanRows(tools, from.index, from.manifest, disk, listing));
    EntryKept(scanned, DependencyLinks(Dedup(listing), Dedup(listing), FactsOf(scanned)), p);
  }

  lemma EntryKept(scanned: Index, links: seq<Link>, p: string)
    requires p in scanned
    ensures var full := Deduplicated(WithDependents(scanned, links));
            p in full && full[p].facts == scanned[p].facts
  {
  }

  lemma {:induction false} AllSkipped(tools: Tools, index: Index, manifest: Manifest, disk: Disk, listing: seq<string>)
    requires OnDisk(listing, disk)
    requires forall p :: p in listing ==> ScanFile(tools, index, manifest, p, disk[p]).how == StatSkipped
    ensures Tally(tools, index, manifest, disk, listing) == Counts(|listing|, 0, 0, 0, 0, |listing|)
  {
    if listing == [] {
    } else {
      AllSkipped(tools, index, manifest, disk, listing[..|listing| - 1]);
    }
  }

  /** Time of change and size are those recorded, for the text the stored entry was parsed from. */
  predicate StatKept(index: Index, manifest: Manifest, disk: Disk, p: string) {
    && p in disk && p in manifest && p in index
    && disk[p].stat.mtime == manifest[p].mtime && disk[p].stat.size == manifest[p].size
    && index[p].facts.checksum == manifest[p].checksum
  }

  predicate SumKept(tools: Tools, index: Index, disk: Disk, p: string) {
    p in disk && p in index && index[p].facts.checksum == tools.checksum(disk[p].content)
  }

  /** How a file is handled. */
  lemma HowExactly(tools: Tools, index: Index, manifest: Manifest, disk: Disk, p: string)
    requires p in disk
    ensures var how := ScanFile(tools, index, manifest, p, disk[p]).how;
            && (how == StatSkipped <==> StatKept(index, manifest, disk, p))
            && (how == ChecksumSkipped <==> !StatKept(index, manifest, disk, p) && SumKept(tools, index, disk, p))
  {
  }

  /** Counters by tests on the files: unchanged by stat, by checksum only, new, and changed. */
  ghost predicate CountedBy(c: Counts, listing: seq<string>, stat: string -> bool, sum: string -> bool,
                            fresh_: string -> bool, changed: string -> bool)
  {
    && c.statSkipped == |Positions(listing, stat)| && c.checksumSkipped == |Positions(listing, sum)|
    && c.added == |Positions(listing, fresh_)| && c.updated == |Positions(listing, changed)|
  }

  lemma CountedPush(c: Counts, init: seq<string>, p: string, how: How, known: bool, stat: string -> bool,
                    sum: string -> bool, fresh_: string -> bool, changed: string -> bool)
    requires CountedBy(c, init, stat, sum, fresh_, changed)
    requires (how == StatSkipped <==> stat(p)) && (how == ChecksumSkipped <==> sum(p))
    requires (how == Reindexed && !known <==> fresh_(p)) && (how == Reindexed && known <==> changed(p))
    ensures CountedBy(Counted(c, how, known), init + [p], stat, sum, fresh_, changed)
  {
    PositionsPush(init, p, stat);
    PositionsPush(init, p, sum);
    PositionsPush(init, p, fresh_);
    PositionsPush(init, p, changed);
  }

  lemma {:induction false} CountsBy(tools: Tools, index: Index, manifest: Manifest, disk: Disk, listing: seq<string>,
                                    stat: string -> bool, sum: string -> bool, fresh_: string -> bool,
                                    changed: string -> bool)
    requires OnDisk(listing, disk)
    requires forall p :: p in listing ==>
               var how := ScanFile(tools, index, manifest, p, disk[p]).how;
               && (how == StatSkipped <==> stat(p)) && (how == ChecksumSkipped <==> sum(p))
               && (how == Reindexed && p !in index <==> fresh_(p)) && (how == Reindexed && p in index <==> changed(p))
    ensures CountedBy(Tally(tools, index, manifest, disk, listing), listing, stat, sum, fresh_, changed)
  {
    if listing == [] {
      NoPositions(stat);
      NoPositions(sum);
      NoPositions(fresh_);
      NoPositions(changed);
    } else {
      var init, last := listing[..|listing| - 1], listing[|listing| - 1];
      assert listing == init + [last];
      CountsBy(tools, index, manifest, disk, init, stat, sum, fresh_, changed);
      CountedPush(Tally(tools, index, manifest, disk, init), init, last,
                  ScanFile(tools, index, manifest, last, disk[last]).how, last in index, stat, sum, fresh_, changed);
    }
  }

  /** What is counted, file by file. */
  lemma CountsExactly(tools: Tools, index: Index, manifest: Manifest, disk: Disk, listing: seq<string>)
    requires OnDisk(listing, disk)
    ensures CountedBy(
              Tally(tools, index, manifest, disk, listing), listing,
              p => StatKept(index, manifest, disk, p),
              p => !StatKept(index, manifest, disk, p) && SumKept(tools, index, disk, p),
              p => !StatKept(index, manifest, disk, p) && !SumKept(tools, index, disk, p) && p !in index,
              p => !StatKept(index, manifest, disk, p) && !SumKept(tools, index, disk, p) && p in index)
  {
    forall p | p in listing
      ensures var how := ScanFile(tools, index, manifest, p, disk[p]).how;
              && (how == StatSkipped <==> StatKept(index, manifest, disk, p))
              && (how == ChecksumSkipped <==> !StatKept(index, manifest, disk, p) && SumKept(tools, index, disk, p))
    {
      HowExactly(tools, index, manifest, disk, p);
    }
    CountsBy(tools, index, manifest, disk, listing,
             p => StatKept(index, manifest, disk, p),
             p => !StatKept(index, manifest, disk, p) && SumKept(tools, index, disk, p),
             p => !StatKept(index, manifest, disk, p) && !SumKept(tools, index, disk, p) && p !in index,
             p => !StatKept(index, manifest, disk, p) && !SumKept(tools, index, disk, p) && p in index);
  }

  /** The stamps of an entry: those of the file when it is parsed, and otherwise those stored. */
  lemma StampsOfEntry(tools: Tools, force: bool, cites: bool, store: Store, disk: Disk, listing: seq<string>, p: string)
    requires OnDisk(listing, disk) && p in listing
    ensures var entries := Build(tools, force, cites, store, disk, listing).entries;
            var kept := StatKept(store.index, store.manifest, disk, p) || SumKept(tools, store.index, disk, p);
            && p in entries
            && (!force && kept ==>
                  entries[p].created == store.index[p].created && entries[p].updated == store.index[p].updated)
            && (force || !kept ==>
                  && entries[p].updated == disk[p].stat.mtime
                  && (tools.created(disk[p].content).Some? ==>
                        Some(entries[p].created) == tools.created(disk[p].content))
                  && (tools.created(disk[p].content).None? ==> entries[p].created == disk[p].stat.birthtime))
  {
    var from := Loaded(force, store);
    var row := ScanFile(tools, from.index, from.manifest, p, disk[p]);
    assert Build(tools, force, cites, store, disk, listing).entries[p].created == row.entry.created;
  }

  /** Every file is counted once by how it was handled and once by what became of its entry. */
  lemma {:induction false} CountsAddUp(tools: Tools, index: Index, manifest: Manifest, disk: Disk, listing: seq<string>)
    requires OnDisk(listing, disk)
    ensures var c := Tally(tools, index, manifest, disk, listing);
            && c.statSkipped + c.checksumSkipped + c.reindexed == |listing|
            && c.added + c.updated == c.reindexed
            && c.reused == c.statSkipped + c.checksumSkipped
  {
    if listing == [] {
    } else {
      CountsAddUp(tools, index, manifest, disk, listing[..|listing| - 1]);
    }
  }
}
