/**
 * Building the artifact index (src/artifacts/index-builder.ts, checksum-manifest.ts and
 * citation-parser.ts): the change-detecting scan, the tag index, the dependency graph with its
 * citation edges, and the dependents of every entry.
 */
module IndexBuilder {
  import opened Collections
  import opened DepGraph

  // ------------------------------------------------------------------ data

  /** What the metadata extractors read out of a file: a function of its path and text. */
  datatype Fields = Fields(kind: string, phase: string, title: string, tags: seq<string>,
                           summary: string, dependencies: seq<string>, discovery: string)

  datatype Citation = Citation(cites: seq<string>, citedBy: seq<string>)

  /**
   * The library code the builder calls, as functions: the truncated checksum, the extractors,
   * the frontmatter `created` and `ref` (the latter absent unless it is a node identifier) and the
   * citation sidecar.
   */
  datatype Tools = Tools(checksum: string -> string,
                         extract: (string, string) -> Fields,
                         created: string -> Option<string>,
                         ref: string -> Option<string>,
                         sidecar: string -> Option<Citation>)

  datatype Stat = Stat(mtime: string, size: nat, birthtime: string)
  datatype File = File(content: string, stat: Stat)
  type Disk = map<string, File>

  /** The part of an index entry that is derived from path and content. */
  datatype Facts = Facts(path: string, fields: Fields, checksum: string)
  datatype Entry = Entry(facts: Facts, created: string, updated: string, dependents: seq<string>)

  datatype ManifestEntry = ManifestEntry(checksum: string, mtime: string, size: nat)

  type Index = map<string, Entry>
  type Manifest = map<string, ManifestEntry>

  // -------------------------------------------------------- change detection

  function MakeEntry(checksum: string, stat: Stat): ManifestEntry {
    ManifestEntry(checksum, stat.mtime, stat.size)
  }

  predicate StatMatches(stat: Stat, entry: Option<ManifestEntry>) {
    entry.Some? && stat.mtime == entry.value.mtime && stat.size == entry.value.size
  }

  function Lookup<T>(m: map<string, T>, p: string): Option<T> {
    if p in m then Some(m[p]) else None
  }

  datatype How = StatSkipped | ChecksumSkipped | Reindexed

  datatype Row = Row(entry: Entry, manifest: ManifestEntry, how: How)

  function Parsed(tools: Tools, p: string, file: File): Entry {
    Entry(Facts(p, tools.extract(p, file.content), tools.checksum(file.content)),
          var written := tools.created(file.content);
          if written.Some? then written.value else file.stat.birthtime,
          file.stat.mtime, [])
  }

  /** One file of the scan: stat first, then checksum, then a full parse. */
  function ScanFile(tools: Tools, existing: Index, manifest: Manifest, p: string, file: File): Row {
    var known := Lookup(manifest, p);
    if StatMatches(file.stat, known) && p in existing && existing[p].facts.checksum == known.value.checksum then
      Row(existing[p], known.value, StatSkipped)
    else
      var checksum := tools.checksum(file.content);
      if p in existing && existing[p].facts.checksum == checksum then
        Row(existing[p], MakeEntry(checksum, file.stat), ChecksumSkipped)
      else
        Row(Parsed(tools, p, file), MakeEntry(checksum, file.stat), Reindexed)
  }

  datatype Counts = Counts(statSkipped: nat, checksumSkipped: nat, reindexed: nat,
                           added: nat, updated: nat, reused: nat)

  function Counted(c: Counts, how: How, known: bool): Counts {
    match how
    case StatSkipped => c.(statSkipped := c.statSkipped + 1, reused := c.reused + 1)
    case ChecksumSkipped => c.(checksumSkipped := c.checksumSkipped + 1, reused := c.reused + 1)
    case Reindexed =>
      if known then c.(reindexed := c.reindexed + 1, updated := c.updated + 1)
      else c.(reindexed := c.reindexed + 1, added := c.added + 1)
  }

  function Tally(tools: Tools, existing: Index, manifest: Manifest, disk: Disk, listing: seq<string>): Counts
    requires forall p :: p in listing ==> p in disk
  {
    if listing == [] then Counts(0, 0, 0, 0, 0, 0)
    else
      var p := listing[|listing| - 1];
      Counted(Tally(tools, existing, manifest, disk, listing[..|listing| - 1]),
              ScanFile(tools, existing, manifest, p, disk[p]).how, p in existing)
  }

  function ScanRows(tools: Tools, existing: Index, manifest: Manifest, disk: Disk,
                    listing: seq<string>): map<string, Row>
    requires forall p :: p in listing ==> p in disk
  {
    map p | p in listing :: ScanFile(tools, existing, manifest, p, disk[p])
  }

  function EntriesOf(rows: map<string, Row>): Index {
    map p | p in rows :: rows[p].entry
  }

  function ManifestOf(rows: map<string, Row>): Manifest {
    map p | p in rows :: rows[p].manifest
  }

  lemma RowsPush(rows: map<string, Row>, p: string, row: Row)
    ensures EntriesOf(rows[p := row]) == EntriesOf(rows)[p := row.entry]
    ensures ManifestOf(rows[p := row]) == ManifestOf(rows)[p := row.manifest]
  {
  }

  lemma ScanPush(tools: Tools, existing: Index, manifest: Manifest, disk: Disk, done: seq<string>, p: string, row: Row)
    requires p in disk && forall q :: q in done ==> q in disk
    requires row == ScanFile(tools, existing, manifest, p, disk[p])
    ensures forall q :: q in done + [p] ==> q in disk
    ensures ScanRows(tools, existing, manifest, disk, done + [p])
            == ScanRows(tools, existing, manifest, disk, done)[p := row]
    ensures Tally(tools, existing, manifest, disk, done + [p])
            == Counted(Tally(tools, existing, manifest, disk, done), row.how, p in existing)
  {
    assert (done + [p])[..|done|] == done;
  }

  /** The body of the scan loop for one file. */
  method ScanOne(tools: Tools, existing: Index, manifest: Manifest, p: string, file: File)
    returns (entry: Entry, recorded: ManifestEntry, how: How)
    ensures Row(entry, recorded, how) == ScanFile(tools, existing, manifest, p, file)
  {
    var known := Lookup(manifest, p);
    if StatMatches(file.stat, known) && p in existing && existing[p].facts.checksum == known.value.checksum {
      return existing[p], known.value, StatSkipped;
    }
    var checksum := tools.checksum(file.content);
    recorded := MakeEntry(checksum, file.stat);
    if p in existing && existing[p].facts.checksum == checksum {
      return existing[p], recorded, ChecksumSkipped;
    }
    return Parsed(tools, p, file), recorded, Reindexed;
  }

  /** What the scan loop has gathered from the files done so far. */
  ghost predicate Gathered(tools: Tools, existing: Index, manifest: Manifest, disk: Disk, done: seq<string>,
                           keys: seq<string>, entries: Index, nextManifest: Manifest, counts: Counts)
    requires forall p :: p in done ==> p in disk
  {
    && keys == Dedup(done)
    && entries == EntriesOf(ScanRows(tools, existing, manifest, disk, done))
    && nextManifest == ManifestOf(ScanRows(tools, existing, manifest, disk, done))
    && counts == Tally(tools, existing, manifest, disk, done)
  }

  lemma GatheredPush(tools: Tools, existing: Index, manifest: Manifest, disk: Disk, done: seq<string>,
                     keys: seq<string>, entries: Index, nextManifest: Manifest, counts: Counts, p: string, row: Row)
    requires p in disk && forall q :: q in done ==> q in disk
    requires Gathered(tools, existing, manifest, disk, done, keys, entries, nextManifest, counts)
    requires row == ScanFile(tools, existing, manifest, p, disk[p])
    ensures forall q :: q in done + [p] ==> q in disk
    ensures Gathered(tools, existing, manifest, disk, done + [p], if p in keys then keys else keys + [p],
                     entries[p := row.entry], nextManifest[p := row.manifest], Counted(counts, row.how, p in existing))
  {
    ScanPush(tools, existing, manifest, disk, done, p, row);
    RowsPush(ScanRows(tools, existing, manifest, disk, done), p, row);
    DedupStep(done, p);
  }

  /** The incremental loop. Entry keys keep the order of first insertion. */
  method Scan(tools: Tools, existing: Index, manifest: Manifest, disk: Disk, listing: seq<string>)
    returns (keys: seq<string>, entries: Index, nextManifest: Manifest, counts: Counts)
    requires forall p :: p in listing ==> p in disk
    ensures keys == Dedup(listing)
    ensures entries == EntriesOf(ScanRows(tools, existing, manifest, disk, listing))
    ensures nextManifest == ManifestOf(ScanRows(tools, existing, manifest, disk, listing))
    ensures counts == Tally(tools, existing, manifest, disk, listing)
  {
    keys, entries, nextManifest, counts := [], map[], map[], Counts(0, 0, 0, 0, 0, 0);
    for i := 0 to |listing|
      invariant Gathered(tools, existing, manifest, disk, listing[..i], keys, entries, nextManifest, counts)
    {
      var p := listing[i];
      var entry, recorded, how := ScanOne(tools, existing, manifest, p, disk[p]);
      GatheredPush(tools, existing, manifest, disk, listing[..i], keys, entries, nextManifest, counts, p,
                   Row(entry, recorded, how));
      TakeNext(listing, i);
      if p !in keys {
        keys := keys + [p];
      }
      entries := entries[p := entry];
      nextManifest := nextManifest[p := recorded];
      counts := Counted(counts, how, p in existing);
    }
    TakeAll(listing);
  }
}
