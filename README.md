# KODER memory layer, task ledger and editor helpers in Dafny

This project models the core of KODER, an editor pair-programming assistant,
and proves properties of the model:

- **`MemoryManager`** (src/core/memory.ts) is a two-tier content-addressed file store.
  - The local tier is a cache directory with one file per hash, plus a `path → hash` table (`path_mappings.json`) that is read, updated and rewritten whole on every store.
  - The remote tier is a blob store keyed `files/<hash>`, plus a `files` document collection keyed by hash and queried by path.
  - A workspace record is kept in both tiers.
  - The class `Memory.MemoryManager` holds one field per store and an in-memory `fileCount`.
  - Each method performs the source's steps in order. Each is proved to end in the state given by a step function of `MemoryStore`.
  - The tier guarantees are lemmas about those step functions, in `MemoryProperties`.
- **`Task`** (src/core/task.ts) is the session ledger.
  - The title rule and JavaScript's `trim` are in `TaskText`.
  - The append-only message list, the completion flag and the per-terminal output accumulator are in `TaskLedger.Task`.
  - `GetTerminalOutputsForContext` renders the accumulator.
- **`VSCodeIntegration`** (src/vscode/integration.ts):
  - `escapeHtml` is modelled as written, as five successive replacements, in `HtmlEscape`.
  - The `isActive` start/stop guard and the event handlers it gates are in `Integration.VSCodeIntegration`.
  - So is the context list that `askQuestion` builds from search hits and `getFile`.

Failures are explicit.
- Every operation that performs I/O takes `faults: set<IoStep>`: the I/O calls that throw if they are reached.
- `storeFile` and `saveWorkspaceMetadata` return `Done` or `Failed(step)`. The failed step is the rethrown error.
- `getFile` returns `Option<string>`. `None` stands for `null`.

The model follows the code, including where a different policy might be expected:
- `storeFile` rethrows a failure of the remote blob write. It is not treated as best-effort.
- `getFile` catches every error, local ones included, and returns `null`.
- The remote lookup takes the first document the query returns, in store order. It does not pick the most recent one.
- The counter is an instance field and starts at 0 whatever the tiers already hold.

## Model

| member | source | states |
|---|---|---|
| `Memory.MemoryManager.constructor` | src/core/memory.ts:19-32 | a manager over whatever the cache directory and remote stores hold; `fileCount` starts at 0 |
| `Memory.MemoryManager.StoreFileLocally` | src/core/memory.ts:58-72 | writes the cache file under the hash, then loads the table (`{}` when absent), sets the one path and rewrites it; a failing step leaves the later writes undone |
| `Memory.MemoryManager.StoreFile` | src/core/memory.ts:34-56 | local tier, remote blob, remote metadata, in that order; the first failure is rethrown with earlier writes kept; `fileCount` rises by 1 exactly when all writes complete |
| `Memory.MemoryManager.GetFile` | src/core/memory.ts:74-116 | local table and cache first, else the first remote document's blob with write-back; never throws; never changes the remote tier or the counter |
| `Memory.MemoryManager.SaveWorkspaceMetadata` | src/core/memory.ts:118-133 | writes the local record, then the remote document `"workspace"`; a remote failure is rethrown after the local write |
| `Memory.MemoryManager.GetFileCount` | src/core/memory.ts:135-137 | returns the instance counter |
| `MemoryStore.Upsert` | src/core/memory.ts:43-49 | the stored document is present, documents with other ids are kept, and no two documents share an id |
| `MemoryStore.QueryByPath` | src/core/memory.ts:91-94 | the answer holds exactly the documents with that path |
| `MemoryProperties.QueryFindsFirstInStoreOrder` | src/core/memory.ts:96-97 | the document getFile uses is the earliest one in store order with the path |
| `MemoryProperties.BlobKeyInjective` | src/core/memory.ts:40 | distinct hashes have distinct `files/<hash>` blob keys |
| `MemoryProperties.StoreFileDoneIff` | src/core/memory.ts:34-56 | storeFile completes if and only if none of the calls it reaches throws and the hash names a file |
| `MemoryProperties.StoreFileWrites` | src/core/memory.ts:40-51 | after a completed store: `path ↦ hash`, every other path entry unchanged, content cached and in blob `files/<hash>`, one document with `id = hash`, same path, lastModified, fileType and `size = |content|`, counter + 1 |
| `MemoryProperties.StoreFileFailureKeepsEarlierWrites` | src/core/memory.ts:52-55 | a failed store keeps exactly the writes before the failing call and leaves the counter and the collection unchanged |
| `MemoryProperties.LastWriterWins` | src/core/memory.ts:59-71 | two stores at one path leave `path ↦ second hash`, and the first content is still cached under its hash |
| `MemoryProperties.FastPathServesCache` | src/core/memory.ts:77-87 | a table entry that names a cache file which exists is answered from the cache and changes nothing |
| `MemoryProperties.FastPathIgnoresRemote` | src/core/memory.ts:77-87 | on the fast path the remote tier (blobs, documents, workspace documents) and remote failures make no difference |
| `MemoryProperties.FallbackRepopulates` | src/core/memory.ts:91-108 | on a local miss (no usable entry and no entry naming a directory) the first document's blob is returned, and a non-empty one whose id names a file is written back as `path ↦ id` with the blob cached under `id` |
| `MemoryProperties.GetFileAnswersFromATier` | src/core/memory.ts:74-116 | what getFile returns comes from the local cache or the first remote document's blob; remote tier, workspace record and counter are untouched; no cache file disappears |
| `MemoryProperties.GetFileNullCases` | src/core/memory.ts:96-115 | null when neither tier resolves the path, when the table entry is `.` or `..` (reading a directory throws), and when the table read, cache read, query or blob read throws |
| `MemoryProperties.LocalReadAfterStore` | src/core/memory.ts:34-40 | once the local writes of a store are done, the path reads back its content even if the store then failed remotely and every remote call fails |
| `MemoryProperties.SaveWorkspaceLocalFirst` | src/core/memory.ts:118-133 | completes if and only if both writes succeed; the local record is overwritten even when the remote write fails; the remote id is always `"workspace"`; nothing else changes |
| `MemoryProperties.CounterCountsCompletedStores` | src/core/memory.ts:22 | over any sequence of calls, the counter grows by exactly the number of completed stores |
| `MemoryProperties.CacheNeverShrinks` | src/core/memory.ts:58-72 | no call removes a cache file |
| `MemoryProperties.RunKeepsIdsUnique` | src/core/memory.ts:43-49 | no sequence of calls gives two `files` documents the same id |
| `TaskText.FirstLine` | src/core/task.ts:72 | the longest prefix before the first line feed |
| `TaskText.TrimStart` | src/core/task.ts:72 | drops exactly the leading white space |
| `TaskText.TrimEnd` | src/core/task.ts:72 | drops exactly the trailing white space |
| `TaskText.TrimEmptyIff` | src/core/task.ts:115 | a string trims to empty if and only if all its characters are white space |
| `TaskText.GenerateTitle` | src/core/task.ts:70-77 | the title has at most 30 characters and no line feed |
| `TaskText.TitleFromFirstLine` | src/core/task.ts:70-77 | a trimmed first line of at most 30 characters is the title itself; a longer one gives its first 27 characters followed by `...` |
| `TaskText.Deliver` | src/core/task.ts:54-58 | the terminal's new text is its old text (`''` when absent) followed by the chunk; a new terminal is listed last and a known one keeps its place; other terminals unchanged; keys stay listed once each |
| `TaskText.DeliverAllCollects` | src/core/task.ts:54-58 | each terminal's text is the in-order concatenation of all chunks delivered for it, and terminals are listed in first-delivery order |
| `TaskText.RenderEmptyIff` | src/core/task.ts:112-120 | the rendering is `""` if and only if every terminal's output is blank |
| `TaskLedger.Task.constructor` | src/core/task.ts:33-65 | an empty or missing prompt gives title `New Task` and no message; otherwise its generated title and one user message; not complete, no terminal output |
| `TaskLedger.Task.AddMessage` | src/core/task.ts:82-91 | appends exactly one message at the end; earlier messages keep positions and values |
| `TaskLedger.Task.Complete` | src/core/task.ts:305-308 | sets the flag; only this method writes it, so it never returns to false |
| `TaskLedger.Task.OnTerminalOutput` | src/core/task.ts:54-58 | the accumulator becomes the one delivery of the chunk |
| `TaskLedger.Task.GetTerminalOutputsForContext` | src/core/task.ts:112-120 | one `\n---Terminal: id---\n` block per non-blank terminal, in insertion order |
| `HtmlEscape.EscapeHtmlPerChar` | src/vscode/integration.ts:213-220 | the five replacements in sequence escape every character independently; no entity is escaped twice |
| `HtmlEscape.ReplaceAll` | src/vscode/integration.ts:215-219 | one global `replace` of a character by a literal replacement (no `$` patterns): a character is in the result exactly when it is in the input and is not the replaced one, or the replaced one occurs and it is in the replacement |
| `HtmlEscape.EscapeHtml` | src/vscode/integration.ts:213-220 | the five global replacements, `&` first; the output contains no `<`, `>`, `"` or `'` |
| `HtmlEscape.EscapeHtmlAmpersand` | src/vscode/integration.ts:215-219 | every `&` of the output starts one of `&amp;`, `&quot;`, `&#39;`, `&lt;`, `&gt;` |
| `HtmlEscape.EscapeHtmlLength` | src/vscode/integration.ts:214-219 | output length = input length + 4·#`&` + 5·#`"` + 4·#`'` + 3·#`<` + 3·#`>` |
| `HtmlEscape.EscapeHtmlIdentity` | src/vscode/integration.ts:214-219 | text with none of the five characters comes back unchanged |
| `HtmlEscape.EscapeHtmlRoundTrip` | src/vscode/integration.ts:214-219 | replacing the entities back recovers the input |
| `HtmlEscape.EscapeHtmlInjective` | src/vscode/integration.ts:214-219 | different inputs never escape to the same output |
| `Integration.GatherFound` | src/vscode/integration.ts:150-155 | at most one context entry per hit, none empty; gathering never touches the remote tier or the counter |
| `Integration.GatherNothingResolves` | src/vscode/integration.ts:150-155 | when no hit resolves in either tier, nothing is added and nothing changes |
| `Integration.VSCodeIntegration.constructor` | src/vscode/integration.ts:11-34 | inactive, status bar item hidden, nothing logged |
| `Integration.VSCodeIntegration.Start` | src/vscode/integration.ts:36-47 | while active nothing changes; otherwise it becomes active, shows the status bar and logs the start |
| `Integration.VSCodeIntegration.Stop` | src/vscode/integration.ts:49-53 | always inactive afterwards, status bar hidden, stop logged |
| `Integration.VSCodeIntegration.OnDidChangeTextDocument` | src/vscode/integration.ts:57-62 | the handler runs exactly while active |
| `Integration.VSCodeIntegration.OnDidSaveTextDocument` | src/vscode/integration.ts:65-70 | logs the saved file exactly while active |
| `Integration.VSCodeIntegration.OnDidChangeActiveTextEditor` | src/vscode/integration.ts:73-78 | logs the focused file exactly while active and an editor is present |
| `Integration.VSCodeIntegration.GatherContext` | src/vscode/integration.ts:143-155 | the active file's content, then each hit's non-empty getFile result, in hit order, with the memory layer in the state those getFile calls leave |
| `Integration.VSCodeIntegration.AskQuestion` | src/vscode/integration.ts:118-168 | logs the question; no context without an active editor or when the search fails; otherwise the list GatherContext builds |

## Left out

- File-system and JSON I/O: the path table, the cache files and the workspace record are modelled directly as maps and values. Serialisation is taken to round-trip.
- Cache file names: a hash is used verbatim as a file name inside the cache directory. The model covers the hashes that join to a directory: `""` and `.` name the cache directory and `..` its parent, so writing them fails. A path-table entry `.` or `..` reads as null, while an entry `""` is skipped and getFile falls back to the remote tier. A hash with `/` usually names a file in a subdirectory that is never created, so the source's write throws where the model completes. A hash such as `x/../y` or `path_mappings.json` aliases another file. Neither of these last two cases is modelled.
- Inherited JavaScript object keys: the path table is a plain map. Paths such as `__proto__` or `constructor` read inherited properties in the source. They are not modelled.
- The remote client (`AzureClient`): it is not part of this model. Its stores are maps and a document sequence, and its failures are the `faults` parameter.
  - A missing blob is taken to read as absent.
  - The order in which the `files` query returns documents is fixed as collection order. An upsert replaces in place; a new id is appended.
- `search`: it only forwards to `searchCode`. Its answer is a parameter of `AskQuestion`. Ranking is not modelled.
- Concurrency: all calls are sequential. This includes the read-modify-write race on the path table and the un-awaited write-back in `getFile` (its body runs synchronously).
- Error messages and `console.error` logging are not modelled. The outcome only names the failing call.
- Task ids, timestamps and message times: `crypto.randomUUID` and `Date.now` become parameters.
- `saveTask`: it calls `memoryManager.storeTaskMetadata`, which src/core/memory.ts does not define. The persistence step is not modelled.
- VS Code work in task.ts is not modelled: `executeCommand`, `getFile`, `editFile`, `createDiffUri`, `showDiffAndConfirm`, `dispose` and the terminal manager's process handling. `isStreaming` is never changed in that file.
- Text lengths are counted in Unicode scalar values. JavaScript counts UTF-16 code units, so `substring(0, 27)` may split a surrogate pair; this is not modelled.
- The status bar is a visibility flag. Log lines are kept without their time stamps.
- `checkWorkspaceIndex` (a UI prompt), `simulateAIResponse` (a stub) and `showAnswer` (webview HTML) are not modelled.
- `askQuestion` runs its work in a `withProgress` callback it does not await. The model runs that work to completion.
- `formatAnswer`: not modelled, because its meaning rests on regular-expression semantics. Its pattern's class `[\\s\\S]` matches only a backslash, `s` or `S`, not any character. So almost no fenced code block is converted.
- src/extension.ts, command registration and activation, is not modelled.
