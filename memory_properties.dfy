/**
 * What the two tiers of src/core/memory.ts guarantee, proved about the step
 * functions of MemoryStore (and so about every MemoryManager, whose methods
 * are proved to follow them).
 */
module MemoryProperties {
  import opened Common
  import opened MemoryStore

  /** Distinct hashes get distinct blob keys. */
  lemma BlobKeyInjective(a: string, b: string)
    ensures BlobKey(a) == BlobKey(b) ==> a == b
  {
    if BlobKey(a) == BlobKey(b) {
      assert a == BlobKey(a)[|BlobPrefix|..];
      assert b == BlobKey(b)[|BlobPrefix|..];
    }
  }

  /** The first document of a path query is the earliest one in store order with that path. */
  lemma {:induction false} QueryFindsFirstInStoreOrder(docs: seq<FileDoc>, p: string, i: nat)
    requires i < |docs| && docs[i].path == p
    requires forall j :: 0 <= j < i ==> docs[j].path != p
    ensures QueryByPath(docs, p) != [] && QueryByPath(docs, p)[0] == docs[i]
  {
    if i > 0 {
      QueryFindsFirstInStoreOrder(docs[1..], p, i - 1);
    }
  }

  // ---------------------------------------------------------------- storeFile

  /** storeFile completes exactly when none of the calls it reaches throws and the hash names a file. */
  lemma StoreFileDoneIff(m: MemoryState, fi: FileInfo, faults: set<IoStep>)
    ensures StoreFileStep(m, fi, faults).outcome == Done <==>
      && !NamesDirectory(fi.hash)
      && CacheWrite !in faults && TableWrite !in faults && BlobPut !in faults && DocPut !in faults
      && (m.table.Some? ==> TableRead !in faults)
  {
  }

  /** A completed storeFile: path table, cache file, blob, metadata document and counter, and nothing else. */
  lemma StoreFileWrites(m: MemoryState, fi: FileInfo, faults: set<IoStep>)
    requires StoreFileStep(m, fi, faults).outcome == Done
    ensures var r := StoreFileStep(m, fi, faults).mem;
      && Mappings(r) == Mappings(m)[fi.path := fi.hash]
      && (forall q :: q != fi.path ==> (q in Mappings(r) <==> q in Mappings(m)))
      && (forall q :: q != fi.path && q in Mappings(m) ==> Mappings(r)[q] == Mappings(m)[q])
      && r.cache == m.cache[fi.hash := fi.content]
      && r.blobs == m.blobs[BlobKey(fi.hash) := fi.content]
      && FileDoc(fi.hash, fi.path, fi.lastModified, fi.fileType, |fi.content|) in QueryByPath(r.files, fi.path)
      && (UniqueIds(m.files) ==> forall x :: x in r.files && x.id == fi.hash ==> x == DocOf(fi))
      && (forall x :: x in m.files && x.id != fi.hash ==> x in r.files)
      && r.fileCount == m.fileCount + 1
      && r.workspace == m.workspace && r.metadata == m.metadata
  {
    var r := StoreFileStep(m, fi, faults).mem;
    assert r.files == Upsert(m.files, DocOf(fi));
    if UniqueIds(m.files) {
      forall x | x in r.files && x.id == fi.hash
        ensures x == DocOf(fi)
      {
        var i :| 0 <= i < |r.files| && r.files[i] == x;
        var k :| 0 <= k < |r.files| && r.files[k] == DocOf(fi);
        assert !(i < k) && !(k < i);
      }
    }
  }

  /** A failed storeFile rethrows the first failing call's error; the writes before it stay and the counter does not move. */
  lemma StoreFileFailureKeepsEarlierWrites(m: MemoryState, fi: FileInfo, faults: set<IoStep>)
    requires StoreFileStep(m, fi, faults).outcome.Failed?
    ensures var r := StoreFileStep(m, fi, faults);
      var local := m.(cache := m.cache[fi.hash := fi.content]);
      var indexed := local.(table := Some(Mappings(m)[fi.path := fi.hash]));
      && r.mem.fileCount == m.fileCount
      && r.mem.files == m.files
      && (r.outcome.step == CacheWrite ==> r.mem == m)
      && (r.outcome.step == TableRead || r.outcome.step == TableWrite ==> r.mem == local)
      && (r.outcome.step == BlobPut ==> r.mem == indexed)
      && (r.outcome.step == DocPut ==> r.mem == indexed.(blobs := m.blobs[BlobKey(fi.hash) := fi.content]))
      && r.outcome.step in {CacheWrite, TableRead, TableWrite, BlobPut, DocPut}
  {
  }

  /** Two completed stores at one path: the table names the second hash, and the first content is still cached. */
  lemma LastWriterWins(m: MemoryState, f1: FileInfo, f2: FileInfo, faults1: set<IoStep>, faults2: set<IoStep>)
    requires f1.path == f2.path
    requires StoreFileStep(m, f1, faults1).outcome == Done
    requires StoreFileStep(StoreFileStep(m, f1, faults1).mem, f2, faults2).outcome == Done
    ensures var r := StoreFileStep(StoreFileStep(m, f1, faults1).mem, f2, faults2).mem;
      && f2.path in Mappings(r) && Mappings(r)[f2.path] == f2.hash
      && f1.hash in r.cache
      && r.cache[f1.hash] == (if f1.hash == f2.hash then f2.content else f1.content)
      && r.fileCount == m.fileCount + 2
  {
    StoreFileWrites(m, f1, faults1);
    StoreFileWrites(StoreFileStep(m, f1, faults1).mem, f2, faults2);
  }

  // ---------------------------------------------------------------- getFile

  /** The fast path: a table entry with a cached file is served from the cache and changes nothing. */
  lemma FastPathServesCache(m: MemoryState, p: string, faults: set<IoStep>)
    requires LocalHit(m, p) && TableRead !in faults && CacheRead !in faults
    ensures GetFileStep(m, p, faults) == Fetch(m, Some(m.cache[Mappings(m)[p]]))
  {
  }

  /** The fast path never consults the remote tier: its contents and failures make no difference. */
  lemma FastPathIgnoresRemote(m: MemoryState, p: string, faults: set<IoStep>,
                              blobs: map<string, string>, files: seq<FileDoc>,
                              metadata: map<string, WorkspaceMetadata>, remoteFaults: set<IoStep>)
    requires LocalHit(m, p)
    requires remoteFaults <= {BlobPut, BlobGet, DocPut, DocQuery}
    ensures var remote := m.(blobs := blobs, files := files, metadata := metadata);
      && GetFileStep(remote, p, faults + remoteFaults).content == GetFileStep(m, p, faults).content
      && GetFileStep(remote, p, faults + remoteFaults).mem == remote
  {
    var remote := m.(blobs := blobs, files := files, metadata := metadata);
    assert Mappings(remote) == Mappings(m);
    assert LocalHit(remote, p);
  }

  /**
   * On a local miss getFile returns the blob of the FIRST document with the
   * path, and writes a non-empty blob back into the local tier under the
   * document's id, so that the next read takes the fast path.
   */
  lemma FallbackRepopulates(m: MemoryState, p: string, faults: set<IoStep>)
    requires !LocalHit(m, p) && !DirectoryHit(m, p)
    requires (m.table.Some? ==> TableRead !in faults) && DocQuery !in faults && BlobGet !in faults
    requires QueryByPath(m.files, p) != []
    ensures var d := QueryByPath(m.files, p)[0];
      var r := GetFileStep(m, p, faults);
      && r.content == (if BlobKey(d.id) in m.blobs then Some(m.blobs[BlobKey(d.id)]) else None)
      && (r.content.Some? && r.content.value != "" && !NamesDirectory(d.id) && CacheWrite !in faults && TableWrite !in faults ==>
            && Mappings(r.mem) == Mappings(m)[p := d.id]
            && r.mem.cache == m.cache[d.id := r.content.value]
            && LocalHit(r.mem, p))
  {
  }

  /** getFile never writes to the remote tier, the workspace record or the counter, and what it returns comes from one of the tiers. */
  lemma GetFileAnswersFromATier(m: MemoryState, p: string, faults: set<IoStep>)
    ensures var r := GetFileStep(m, p, faults);
      && r.mem.blobs == m.blobs && r.mem.files == m.files && r.mem.metadata == m.metadata
      && r.mem.workspace == m.workspace && r.mem.fileCount == m.fileCount
      && m.cache.Keys <= r.mem.cache.Keys
      && (r.content.Some? ==>
            || (LocalHit(m, p) && r.content.value == m.cache[Mappings(m)[p]])
            || (!LocalHit(m, p) && QueryByPath(m.files, p) != []
                && BlobKey(QueryByPath(m.files, p)[0].id) in m.blobs
                && r.content.value == m.blobs[BlobKey(QueryByPath(m.files, p)[0].id)]))
  {
  }

  /** getFile yields null when neither tier resolves the path and whenever a call it depends on throws. */
  lemma GetFileNullCases(m: MemoryState, p: string, faults: set<IoStep>)
    ensures var r := GetFileStep(m, p, faults);
      && (!LocalHit(m, p) && QueryByPath(m.files, p) == [] ==> r.content == None)
      && (m.table.Some? && TableRead in faults ==> r.content == None)
      && (DirectoryHit(m, p) ==> r.content == None)
      && (LocalHit(m, p) && CacheRead in faults ==> r.content == None)
      && (!LocalHit(m, p) && (DocQuery in faults || BlobGet in faults) ==> r.content == None)
  {
  }

  /**
   * Once storeFile has written the local tier, the path reads back its
   * content even if every remote call fails, and even if the store itself
   * failed at the remote blob or the remote metadata.
   */
  lemma LocalReadAfterStore(m: MemoryState, fi: FileInfo, faults: set<IoStep>, readFaults: set<IoStep>)
    requires StoreFileStep(m, fi, faults).outcome in {Done, Failed(BlobPut), Failed(DocPut)}
    requires TableRead !in readFaults && CacheRead !in readFaults
    ensures GetFileStep(StoreFileStep(m, fi, faults).mem, fi.path, readFaults).content == Some(fi.content)
  {
    var r := StoreFileStep(m, fi, faults).mem;
    assert Mappings(r) == Mappings(m)[fi.path := fi.hash];
    assert LocalHit(r, fi.path);
  }

  // ------------------------------------------------------ saveWorkspaceMetadata

  /** The local record is written first and stays written when the remote write fails; the remote document id is always "workspace". */
  lemma SaveWorkspaceLocalFirst(m: MemoryState, md: WorkspaceMetadata, faults: set<IoStep>)
    ensures var r := SaveWorkspaceStep(m, md, faults);
      && (r.outcome == Done <==> WorkspaceWrite !in faults && DocPut !in faults)
      && (WorkspaceWrite in faults ==> r == Step(m, Failed(WorkspaceWrite)))
      && (WorkspaceWrite !in faults ==> r.mem.workspace == Some(md))
      && (r.outcome == Done ==> r.mem.metadata == m.metadata[WorkspaceDocId := md])
      && (r.outcome.Failed? ==> r.mem.metadata == m.metadata)
      && r.mem.cache == m.cache && r.mem.table == m.table && r.mem.blobs == m.blobs
      && r.mem.files == m.files && r.mem.fileCount == m.fileCount
  {
  }

  // ---------------------------------------------------------------- sequences of calls

  /** One call on a MemoryManager. */
  datatype Call =
    | Store(fi: FileInfo, faults: set<IoStep>)
    | Get(path: string, faults: set<IoStep>)
    | SaveWorkspace(md: WorkspaceMetadata, faults: set<IoStep>)

  function Apply(m: MemoryState, c: Call): MemoryState
  {
    match c
    case Store(fi, f) => StoreFileStep(m, fi, f).mem
    case Get(p, f) => GetFileStep(m, p, f).mem
    case SaveWorkspace(md, f) => SaveWorkspaceStep(m, md, f).mem
  }

  /** The state after the calls, made one after the other. */
  function Run(m: MemoryState, calls: seq<Call>): MemoryState
    decreases |calls|
  {
    if calls == [] then m else Run(Apply(m, calls[0]), calls[1..])
  }

  /** How many of the calls are storeFile calls that complete. */
  function StoresDone(m: MemoryState, calls: seq<Call>): nat
    decreases |calls|
  {
    if calls == [] then 0
    else
      var done := calls[0].Store? && StoreFileStep(m, calls[0].fi, calls[0].faults).outcome == Done;
      (if done then 1 else 0) + StoresDone(Apply(m, calls[0]), calls[1..])
  }

  /** The counter moves by exactly one per completed storeFile and by nothing else. */
  lemma {:induction false} CounterCountsCompletedStores(m: MemoryState, calls: seq<Call>)
    ensures Run(m, calls).fileCount == m.fileCount + StoresDone(m, calls)
    decreases |calls|
  {
    if calls != [] {
      var c := calls[0];
      match c {
        case Store(fi, f) =>
        case Get(p, f) => GetFileAnswersFromATier(m, p, f);
        case SaveWorkspace(md, f) => SaveWorkspaceLocalFirst(m, md, f);
      }
      CounterCountsCompletedStores(Apply(m, c), calls[1..]);
    }
  }

  /** No call removes a cache file: content stored under a hash stays retrievable by that hash. */
  lemma {:induction false} CacheNeverShrinks(m: MemoryState, calls: seq<Call>)
    ensures m.cache.Keys <= Run(m, calls).cache.Keys
    decreases |calls|
  {
    if calls != [] {
      var c := calls[0];
      match c {
        case Store(fi, f) =>
        case Get(p, f) => GetFileAnswersFromATier(m, p, f);
        case SaveWorkspace(md, f) => SaveWorkspaceLocalFirst(m, md, f);
      }
      CacheNeverShrinks(Apply(m, c), calls[1..]);
    }
  }

  /** No call gives two documents of the `files` collection the same id. */
  lemma {:induction false} RunKeepsIdsUnique(m: MemoryState, calls: seq<Call>)
    requires UniqueIds(m.files)
    ensures UniqueIds(Run(m, calls).files)
    decreases |calls|
  {
    if calls != [] {
      var c := calls[0];
      match c {
        case Store(fi, f) =>
        case Get(p, f) => GetFileAnswersFromATier(m, p, f);
        case SaveWorkspace(md, f) => SaveWorkspaceLocalFirst(m, md, f);
      }
      RunKeepsIdsUnique(Apply(m, c), calls[1..]);
    }
  }
}
