/**
 * `MemoryManager` of src/core/memory.ts: a two-tier content-addressed file
 * store.  Each tier is a field the methods update in place; `State()` gives the
 * value the step functions of MemoryStore talk about.
 */
module Memory {
  import opened Common
  import opened MemoryStore

  class MemoryManager {
    /** The cache directory: one file per hash. */
    var cache: map<string, string>
    /** path_mappings.json; None while the file does not exist. */
    var table: Option<map<string, string>>
    /** workspace_metadata.json; None while the file does not exist. */
    var workspace: Option<WorkspaceMetadata>
    /** The remote blob store. */
    var blobs: map<string, string>
    /** The remote `files` collection, in store order. */
    var files: seq<FileDoc>
    /** The remote `metadata` collection. */
    var metadata: map<string, WorkspaceMetadata>
    /** Successful storeFile calls made through this instance. */
    var fileCount: nat

    ghost predicate Valid()
      reads this
    {
      UniqueIds(files)
    }

    function State(): MemoryState
      reads this
    {
      MemoryState(cache, table, workspace, blobs, files, metadata, fileCount)
    }

    /**
     * A manager over whatever the cache directory and the remote stores
     * already hold; only the counter starts afresh.
     */
    constructor (cache0: map<string, string>, table0: Option<map<string, string>>,
                 workspace0: Option<WorkspaceMetadata>, blobs0: map<string, string>,
                 files0: seq<FileDoc>, metadata0: map<string, WorkspaceMetadata>)
      requires UniqueIds(files0)
      ensures Valid()
      ensures State() == MemoryState(cache0, table0, workspace0, blobs0, files0, metadata0, 0)
    {
      cache, table, workspace := cache0, table0, workspace0;
      blobs, files, metadata := blobs0, files0, metadata0;
      fileCount := 0;
    }

    /** Writes the cache file, then reads, updates and rewrites the path table. */
    method StoreFileLocally(fi: FileInfo, faults: set<IoStep>) returns (outcome: Outcome)
      requires Valid()
      modifies this
      ensures Valid()
      ensures Step(State(), outcome) == StoreLocallyStep(old(State()), fi, faults)
    {
      if CacheWrite in faults || NamesDirectory(fi.hash) {
        return Failed(CacheWrite);
      }
      cache := cache[fi.hash := fi.content];
      var mappings: map<string, string> := map[];
      if table.Some? {
        if TableRead in faults {
          return Failed(TableRead);
        }
        mappings := table.value;
      }
      mappings := mappings[fi.path := fi.hash];
      if TableWrite in faults {
        return Failed(TableWrite);
      }
      table := Some(mappings);
      outcome := Done;
    }

    /**
     * Local tier, remote blob, remote metadata; the counter rises only after
     * all of them, and the first error is rethrown with the earlier writes kept.
     */
    method StoreFile(fi: FileInfo, faults: set<IoStep>) returns (outcome: Outcome)
      requires Valid()
      modifies this
      ensures Valid()
      ensures Step(State(), outcome) == StoreFileStep(old(State()), fi, faults)
      ensures fileCount == old(fileCount) + (if outcome.Done? then 1 else 0)
    {
      outcome := StoreFileLocally(fi, faults);
      if outcome.Failed? {
        return;
      }
      if BlobPut in faults {
        return Failed(BlobPut);
      }
      blobs := blobs[BlobKey(fi.hash) := fi.content];
      if DocPut in faults {
        return Failed(DocPut);
      }
      files := Upsert(files, DocOf(fi));
      fileCount := fileCount + 1;
    }

    /**
     * The local table and cache first; on a miss the first remote document with
     * the path, its blob, and a write-back into the local tier that is not
     * awaited.  Never throws: every error yields None.
     */
    method GetFile(p: string, faults: set<IoStep>) returns (content: Option<string>)
      requires Valid()
      modifies this
      ensures Valid()
      ensures Fetch(State(), content) == GetFileStep(old(State()), p, faults)
      ensures fileCount == old(fileCount) && blobs == old(blobs) && files == old(files)
    {
      if table.Some? {
        if TableRead in faults {
          return None;
        }
        var mappings := table.value;
        if p in mappings && mappings[p] != "" {
          var hash := mappings[p];
          if NamesDirectory(hash) {
            // The path exists but is a directory, so reading it throws.
            return None;
          }
          if hash in cache {
            if CacheRead in faults {
              return None;
            }
            return Some(cache[hash]);
          }
        }
      }
      if DocQuery in faults {
        return None;
      }
      var docs := QueryByPath(files, p);
      if |docs| == 0 {
        return None;
      }
      if BlobGet in faults {
        return None;
      }
      var key := BlobKey(docs[0].id);
      content := if key in blobs then Some(blobs[key]) else None;
      if content.Some? && content.value != "" {
        // The write-back's own failure is not observed by getFile.
        var ignored := StoreFileLocally(FileInfo(p, content.value, docs[0].id, docs[0].lastModified, docs[0].fileType), faults);
      }
    }

    /** The local record first, then the remote document "workspace"; an error is rethrown. */
    method SaveWorkspaceMetadata(md: WorkspaceMetadata, faults: set<IoStep>) returns (outcome: Outcome)
      requires Valid()
      modifies this
      ensures Valid()
      ensures Step(State(), outcome) == SaveWorkspaceStep(old(State()), md, faults)
    {
      if WorkspaceWrite in faults {
        return Failed(WorkspaceWrite);
      }
      workspace := Some(md);
      if DocPut in faults {
        return Failed(DocPut);
      }
      metadata := metadata[WorkspaceDocId := md];
      outcome := Done;
    }

    /** The number of storeFile calls of this instance that completed every write. */
    method GetFileCount() returns (n: nat)
      ensures n == fileCount
    {
      n := fileCount;
    }
  }
}
