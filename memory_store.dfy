/**
 * The two storage tiers behind `MemoryManager` (src/core/memory.ts), as values,
 * and one step function per operation.  The class in memory.dfy performs each
 * operation statement by statement and is proved to end in the state these
 * functions describe; the properties of the tiers are proved about these
 * functions in memory_properties.dfy.
 */
module MemoryStore {
  import opened Common

  /** The argument of storeFile.  `hash` is chosen by the caller; it is never computed or checked. */
  datatype FileInfo = FileInfo(path: string, content: string, hash: string, lastModified: string, fileType: string)

  /** A document of the remote `files` collection; `id` is the content hash. */
  datatype FileDoc = FileDoc(id: string, path: string, lastModified: string, fileType: string, size: nat)

  /** The record written to workspace_metadata.json and to the remote `metadata` collection. */
  datatype WorkspaceMetadata = WorkspaceMetadata(path: string, lastIndexed: string, fileCount: int)

  /** The I/O calls of memory.ts that may throw.  Each operation takes the set of calls that throw if they are reached. */
  datatype IoStep =
    | CacheWrite      // writing one cache file (fs.writeFileSync)
    | CacheRead       // reading one cache file (fs.readFileSync)
    | TableRead       // reading and parsing path_mappings.json
    | TableWrite      // rewriting path_mappings.json
    | WorkspaceWrite  // writing workspace_metadata.json
    | BlobPut         // azureClient.storeBlob
    | BlobGet         // azureClient.getBlob
    | DocPut          // azureClient.storeDocument
    | DocQuery        // azureClient.queryDocuments

  /** How an operation that may rethrow ended: normally, or with the error of the named call. */
  datatype Outcome = Done | Failed(step: IoStep)

  /**
   * Everything a MemoryManager can observe or change.
   *   cache     the cache directory: one file per hash
   *   table     path_mappings.json (None while the file does not exist)
   *   workspace workspace_metadata.json (None while the file does not exist)
   *   blobs     the remote blob store
   *   files     the remote `files` collection, in the order the store returns it
   *   metadata  the remote `metadata` collection, keyed by document id
   *   fileCount the in-memory counter of this instance
   */
  datatype MemoryState = MemoryState(
    cache: map<string, string>,
    table: Option<map<string, string>>,
    workspace: Option<WorkspaceMetadata>,
    blobs: map<string, string>,
    files: seq<FileDoc>,
    metadata: map<string, WorkspaceMetadata>,
    fileCount: nat)

  /** The result of a state-changing operation. */
  datatype Step = Step(mem: MemoryState, outcome: Outcome)

  /** The result of getFile: the new state and the content, None standing for null. */
  datatype Fetch = Fetch(mem: MemoryState, content: Option<string>)

  const BlobPrefix: string := "files/"
  const WorkspaceDocId: string := "workspace"

  /** The remote blob key of a hash. */
  function BlobKey(hash: string): string
  {
    BlobPrefix + hash
  }

  /** The path table as a dictionary: an absent file reads as `{}`. */
  function Mappings(m: MemoryState): map<string, string>
  {
    if m.table.Some? then m.table.value else map[]
  }

  /** The metadata document storeFile writes for `fi`. */
  function DocOf(fi: FileInfo): FileDoc
  {
    FileDoc(fi.hash, fi.path, fi.lastModified, fi.fileType, |fi.content|)
  }

  /** The remote store keys documents by id: no two documents of a collection share one. */
  ghost predicate UniqueIds(docs: seq<FileDoc>)
  {
    forall i, j :: 0 <= i < j < |docs| ==> docs[i].id != docs[j].id
  }

  /** storeDocument on the `files` collection: replaces the document with the same id in place, or appends. */
  function Upsert(docs: seq<FileDoc>, d: FileDoc): (r: seq<FileDoc>)
    ensures d in r
    ensures forall x :: x in r ==> x == d || x in docs
    ensures forall x :: x in docs && x.id != d.id ==> x in r
    ensures UniqueIds(docs) ==> UniqueIds(r)
  {
    if docs == [] then [d]
    else if docs[0].id == d.id then [d] + docs[1..]
    else [docs[0]] + Upsert(docs[1..], d)
  }

  /** queryDocuments('files', "c.path = @path"): the documents with that path, in store order. */
  function QueryByPath(docs: seq<FileDoc>, p: string): (r: seq<FileDoc>)
    ensures forall x :: x in r <==> x in docs && x.path == p
  {
    if docs == [] then []
    else (if docs[0].path == p then [docs[0]] else []) + QueryByPath(docs[1..], p)
  }

  /**
   * The hashes whose cache file name joins to a directory: the cache directory
   * itself ("" and ".") or its parent (".."). Writing or reading one throws.
   */
  predicate NamesDirectory(hash: string)
  {
    hash == "" || hash == "." || hash == ".."
  }

  /** The fast path of getFile finds a hash for `p` that names a cache file, and that file exists. */
  predicate LocalHit(m: MemoryState, p: string)
  {
    p in Mappings(m) && !NamesDirectory(Mappings(m)[p]) && Mappings(m)[p] in m.cache
  }

  /** The fast path of getFile finds a truthy hash for `p` that names a directory, which always exists. */
  predicate DirectoryHit(m: MemoryState, p: string)
  {
    p in Mappings(m) && Mappings(m)[p] != "" && NamesDirectory(Mappings(m)[p])
  }

  /**
   * storeFileLocally: write the cache file, then read, update and rewrite the
   * path table.  A hash that names a directory cannot be written as a file,
   * so the first write fails.
   */
  function StoreLocallyStep(m: MemoryState, fi: FileInfo, faults: set<IoStep>): Step
  {
    if CacheWrite in faults || NamesDirectory(fi.hash) then Step(m, Failed(CacheWrite))
    else
      var m1 := m.(cache := m.cache[fi.hash := fi.content]);
      if m.table.Some? && TableRead in faults then Step(m1, Failed(TableRead))
      else if TableWrite in faults then Step(m1, Failed(TableWrite))
      else Step(m1.(table := Some(Mappings(m)[fi.path := fi.hash])), Done)
  }

  /** storeFile: local tier, remote blob, remote metadata, then the counter; the first failure is rethrown. */
  function StoreFileStep(m: MemoryState, fi: FileInfo, faults: set<IoStep>): Step
  {
    var local := StoreLocallyStep(m, fi, faults);
    if local.outcome.Failed? then local
    else if BlobPut in faults then Step(local.mem, Failed(BlobPut))
    else
      var m2 := local.mem.(blobs := local.mem.blobs[BlobKey(fi.hash) := fi.content]);
      if DocPut in faults then Step(m2, Failed(DocPut))
      else Step(m2.(files := Upsert(m2.files, DocOf(fi)), fileCount := m2.fileCount + 1), Done)
  }

  /**
   * getFile: the local path table and cache first; otherwise the first remote
   * document with the path and its blob, which is written back to the local
   * tier when it is non-empty.  Every error is caught and yields None; the
   * write-back is not awaited, so its failure never reaches the result.
   */
  function GetFileStep(m: MemoryState, p: string, faults: set<IoStep>): Fetch
  {
    if m.table.Some? && TableRead in faults then Fetch(m, None)
    else if DirectoryHit(m, p) then Fetch(m, None)
    else if LocalHit(m, p) then
      if CacheRead in faults then Fetch(m, None) else Fetch(m, Some(m.cache[Mappings(m)[p]]))
    else if DocQuery in faults then Fetch(m, None)
    else
      var docs := QueryByPath(m.files, p);
      if docs == [] then Fetch(m, None)
      else if BlobGet in faults then Fetch(m, None)
      else if BlobKey(docs[0].id) !in m.blobs then Fetch(m, None)
      else
        var c := m.blobs[BlobKey(docs[0].id)];
        if c == "" then Fetch(m, Some(c))
        else
          var back := FileInfo(p, c, docs[0].id, docs[0].lastModified, docs[0].fileType);
          Fetch(StoreLocallyStep(m, back, faults).mem, Some(c))
  }

  /** saveWorkspaceMetadata: the local file first, then the remote document with the fixed id. */
  function SaveWorkspaceStep(m: MemoryState, md: WorkspaceMetadata, faults: set<IoStep>): Step
  {
    if WorkspaceWrite in faults then Step(m, Failed(WorkspaceWrite))
    else
      var m1 := m.(workspace := Some(md));
      if DocPut in faults then Step(m1, Failed(DocPut))
      else Step(m1.(metadata := m1.metadata[WorkspaceDocId := md]), Done)
  }
}
