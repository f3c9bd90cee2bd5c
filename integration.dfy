/**
 * `VSCodeIntegration` of src/vscode/integration.ts: the start/stop guard, the
 * editor event handlers it gates, and the context list `askQuestion` builds
 * from the search hits and the memory layer.  The editor, the status bar item
 * and the search service are outside the model; what they hand over is a
 * parameter.
 */
module Integration {
  import opened Common
  import opened MemoryStore
  import Memory
  import opened MemoryProperties

  /** A search result; only its path is read. */
  datatype SearchHit = SearchHit(path: string)

  const StartedMessage: string := "KODER pair programming assistant started"
  const StoppedMessage: string := "KODER pair programming assistant stopped"

  /** The memory state after a run of getFile calls, and the non-empty contents they returned, in order. */
  datatype Gathered = Gathered(mem: MemoryState, found: seq<string>)

  /** getFile on each hit's path in turn (the i-th call with the failures `faults(i)`), keeping non-empty results. */
  function Gather(m: MemoryState, hits: seq<SearchHit>, faults: nat -> set<IoStep>): Gathered
  {
    if hits == [] then Gathered(m, [])
    else
      var prev := Gather(m, hits[..|hits| - 1], faults);
      var r := GetFileStep(prev.mem, hits[|hits| - 1].path, faults(|hits| - 1));
      Gathered(r.mem, prev.found + (if r.content.Some? && r.content.value != "" then [r.content.value] else []))
  }

  /**
   * At most one context entry per hit, none of them empty; gathering never
   * touches the remote tier or the counter.
   */
  lemma {:induction false} GatherFound(m: MemoryState, hits: seq<SearchHit>, faults: nat -> set<IoStep>)
    ensures var g := Gather(m, hits, faults);
      && |g.found| <= |hits|
      && (forall k :: 0 <= k < |g.found| ==> g.found[k] != "")
      && g.mem.blobs == m.blobs && g.mem.files == m.files && g.mem.metadata == m.metadata
      && g.mem.fileCount == m.fileCount
  {
    if hits != [] {
      var init := hits[..|hits| - 1];
      GatherFound(m, init, faults);
      var prev := Gather(m, init, faults);
      var r := GetFileStep(prev.mem, hits[|hits| - 1].path, faults(|hits| - 1));
      assert r.mem.blobs == prev.mem.blobs && r.mem.files == prev.mem.files by {
        GetFileAnswersFromATier(prev.mem, hits[|hits| - 1].path, faults(|hits| - 1));
      }
    }
  }

  /**
   * When no hit resolves in either tier, the context is the active file alone.
   */
  lemma {:induction false} GatherNothingResolves(m: MemoryState, hits: seq<SearchHit>, faults: nat -> set<IoStep>)
    requires forall k :: 0 <= k < |hits| ==> !LocalHit(m, hits[k].path) && QueryByPath(m.files, hits[k].path) == []
    ensures Gather(m, hits, faults) == Gathered(m, [])
  {
    if hits != [] {
      GatherNothingResolves(m, hits[..|hits| - 1], faults);
    }
  }

  class VSCodeIntegration {
    const memoryManager: Memory.MemoryManager
    var isActive: bool
    var statusBarVisible: bool
    /** The lines written to the output channel, without their time stamps. */
    var log: seq<string>

    /** Inactive, with the status bar item created but not shown. */
    constructor (mm: Memory.MemoryManager)
      ensures memoryManager == mm
      ensures !isActive && !statusBarVisible && log == []
    {
      memoryManager := mm;
      isActive := false;
      statusBarVisible := false;
      log := [];
    }

    /** Does nothing while active; otherwise activates, shows the status bar and logs. */
    method Start()
      modifies this`isActive, this`statusBarVisible, this`log
      ensures old(isActive) ==> isActive && statusBarVisible == old(statusBarVisible) && log == old(log)
      ensures !old(isActive) ==> isActive && statusBarVisible && log == old(log) + [StartedMessage]
    {
      if isActive {
        return;
      }
      isActive := true;
      statusBarVisible := true;
      log := log + [StartedMessage];
    }

    /** Always deactivates, hides the status bar and logs. */
    method Stop()
      modifies this`isActive, this`statusBarVisible, this`log
      ensures !isActive && !statusBarVisible && log == old(log) + [StoppedMessage]
    {
      isActive := false;
      statusBarVisible := false;
      log := log + [StoppedMessage];
    }

    /** The document-change listener; its handler does nothing yet, so only the guard is observable. */
    method OnDidChangeTextDocument() returns (handled: bool)
      ensures handled == isActive
    {
      handled := isActive;
    }

    /** The document-save listener: logs the file name while active. */
    method OnDidSaveTextDocument(fileName: string) returns (handled: bool)
      modifies this`log
      ensures handled == isActive
      ensures log == if handled then old(log) + ["Document saved: " + fileName] else old(log)
    {
      handled := isActive;
      if handled {
        log := log + ["Document saved: " + fileName];
      }
    }

    /** The active-editor listener: logs the new editor's file name while active and an editor is present. */
    method OnDidChangeActiveTextEditor(editor: Option<string>) returns (handled: bool)
      modifies this`log
      ensures handled == (isActive && editor.Some?)
      ensures log == if handled then old(log) + ["Editor focus changed: " + editor.value] else old(log)
    {
      handled := isActive && editor.Some?;
      if handled {
        log := log + ["Editor focus changed: " + editor.value];
      }
    }

    /** The context list of askQuestion: the active file, then each hit's non-empty getFile result, in hit order. */
    method GatherContext(fileContent: string, hits: seq<SearchHit>, faults: nat -> set<IoStep>) returns (contextFiles: seq<string>)
      requires memoryManager.Valid()
      modifies memoryManager
      ensures memoryManager.Valid()
      ensures var g := Gather(old(memoryManager.State()), hits, faults);
        contextFiles == [fileContent] + g.found && memoryManager.State() == g.mem
    {
      ghost var start := memoryManager.State();
      contextFiles := [fileContent];
      var i := 0;
      while i < |hits|
        invariant 0 <= i <= |hits|
        invariant memoryManager.Valid()
        invariant var g := Gather(start, hits[..i], faults);
          contextFiles == [fileContent] + g.found && memoryManager.State() == g.mem
      {
        ghost var before := memoryManager.State();
        var content := memoryManager.GetFile(hits[i].path, faults(i));
        ghost var r := GetFileStep(before, hits[i].path, faults(i));
        assert r.mem == memoryManager.State() && r.content == content;
        if content.Some? && content.value != "" {
          contextFiles := contextFiles + [content.value];
        }
        assert hits[..i + 1][..i] == hits[..i];
        assert Gather(start, hits[..i + 1], faults).mem == r.mem;
        i := i + 1;
      }
      assert hits[..i] == hits;
    }

    /**
     * askQuestion up to the answer: logs the question; with no active editor,
     * or when the search fails, there is no context (an error is shown);
     * otherwise the context list of GatherContext.
     */
    method AskQuestion(question: string, activeFile: Option<string>, searchResult: Option<seq<SearchHit>>,
                       faults: nat -> set<IoStep>) returns (contextFiles: Option<seq<string>>)
      requires memoryManager.Valid()
      modifies this`log, memoryManager
      ensures memoryManager.Valid()
      ensures log == old(log) + ["User question: " + question]
      ensures activeFile.None? || searchResult.None? ==>
        contextFiles.None? && memoryManager.State() == old(memoryManager.State())
      ensures activeFile.Some? && searchResult.Some? ==>
        var g := Gather(old(memoryManager.State()), searchResult.value, faults);
        contextFiles == Some([activeFile.value] + g.found) && memoryManager.State() == g.mem
    {
      log := log + ["User question: " + question];
      if activeFile.None? || searchResult.None? {
        return None;
      }
      var files := GatherContext(activeFile.value, searchResult.value, faults);
      contextFiles := Some(files);
    }
  }
}
