# A verified model of the website-generating agent and two of its generated apps

This project models four pieces of the repository:

- **The sandboxed file store** (`agent/tools.py`).
  - Every tool path is joined to a fixed project root and resolved lexically.
  - A path that leaves the root is refused.
  - `write_file` creates parent folders and overwrites.
  - `read_file` returns `""` for a missing file and `"[[binary file]]"` for undecodable bytes; text comes back with universal newlines.
  - Every tool first ensures the root folder; when a regular file is in its way, the tool fails with the error `mkdir` raises.
  - `list_files` returns the sorted relative names of all files below the root.
  - Modules `Paths` and `StringOrder` hold the path algebra and the string sort it relies on.
  - Module `FileStore` has the tree as a value, spec functions for each tool, and the class `Workspace` whose methods change the tree in place.
- **The orchestration graph** (`agent/graph.py`).
  - Module `Orchestrator` has the three nodes `planner`, `architect` and `coder`.
  - The language-model calls are oracles that may answer, answer `None` or raise.
  - The coder's tool-using sub-agent is an oracle that returns the tool calls it made, which are then applied to the file tree.
  - Module `Graph` wires the nodes as the compiled `StateGraph` does and runs them under a ceiling on node executions.
- **The VibrantTodo list** (`generated_site1/script.js`), module `Todo`.
  - The class `TodoApp` holds the task list, the active filter, the stored value and the input box.
  - Its methods are add, edit, delete, toggle, filter, the drag reorder with its renumbering loop, and the two input handlers.
- **The SimpleNotebook storage and editor** (`generated_project1/app.js`), module `Notebook`.
  - The class `NoteStorage` does the upsert-by-id save and the delete-by-id.
  - The class `NotebookUi` sorts the sidebar in place on an array, newest first, and tracks the selected note across save and delete.
  - Module `JsBuiltins` models the JavaScript built-ins both apps use: `trim`, `findIndex`, `filter`, and the stable `sort` (an in-place insertion sort proved equal to a functional stable sort).

Each state-changing method is tied by its postcondition to a spec function of the old state. The lemmas prove what the source promises about those functions: round trips, confinement to the root, preserved invariants, idempotence, stability, and the run's exact execution count.

`coder_agent` reports "DONE" only on the execution after the last step (graph.py lines 51-53 and 84), never on the execution that performs it. So a one-step plan takes two coder executions, four node executions in all (`Graph.RunCount`, `Graph.SinglePage`).

## Model

| member | source | states |
|---|---|---|
| Paths.Split | agent/tools.py:27 | splitting on `/` yields at least one segment, none containing `/` |
| Paths.SplitJoin | agent/tools.py:27 | splitting the `/`-join of slash-free segments gives the segments back |
| Paths.JoinSplit | agent/tools.py:27 | joining the split of any string gives the string back |
| Paths.JoinInjective | agent/tools.py:71 | two name sequences with the same `/`-join are equal, so relative names identify files |
| Paths.Normalize | agent/tools.py:27 | lexical resolution of `.`, `..` and empty segments keeps a path made of proper names |
| Paths.NormalizeNames | agent/tools.py:27 | segments that are all proper names are appended unchanged |
| Paths.Resolve | agent/tools.py:27 | `(PROJECT_ROOT / path).resolve()` of a root of proper names is a path of proper names |
| Paths.ResolveRelative | agent/tools.py:27 | a relative path of names resolves to the root extended by those names |
| Paths.ResolveAbsolute | agent/tools.py:27 | an absolute path replaces the root entirely |
| Paths.ResolveParentEscape | agent/tools.py:27 | `../name` resolves to a sibling of the root |
| Paths.WithinParents | agent/tools.py:28 | the containment test is exactly `p == PROJECT_ROOT or PROJECT_ROOT in p.parents` |
| StringOrder.LexReflexive | agent/tools.py:72 | the string order used by `sorted` is reflexive |
| StringOrder.LexTotal | agent/tools.py:72 | any two strings are comparable |
| StringOrder.LexAntisymmetric | agent/tools.py:72 | strings ordered both ways are equal |
| StringOrder.LexTransitive | agent/tools.py:72 | the order is transitive |
| StringOrder.Insert | agent/tools.py:72 | insertion adds exactly the one element (multiset) |
| StringOrder.InsertSorted | agent/tools.py:72 | insertion into a sorted list keeps it sorted |
| StringOrder.Sort | agent/tools.py:72 | `sorted(files)` is a permutation of its input |
| StringOrder.SortSorted | agent/tools.py:72 | `sorted(files)` is in order |
| StringOrder.SortedUnique | agent/tools.py:72 | two sorted permutations of one multiset are equal, so the listing is independent of enumeration order |
| StringOrder.SortDeterminedByMultiset | agent/tools.py:72 | sorting depends only on the multiset of names |
| StringOrder.SortOfSorted | agent/tools.py:72 | sorting a sorted list leaves it unchanged |
| StringOrder.SortElems | agent/tools.py:72 | sorting keeps exactly the names it was given |
| StringOrder.AppendFresh | agent/tools.py:71 | appending a name not yet collected keeps the collected names distinct and adds exactly it |
| FileStore.WithRoot | agent/tools.py:12-13 | `mkdir(parents=True, exist_ok=True)` when it succeeds: every file and folder is kept and the root becomes a folder |
| FileStore.MkdirError | agent/tools.py:13 | when a file is in the way, `mkdir` raises `FileExistsError` exactly when the folder itself is a file, and `NotADirectoryError` exactly when an ancestor is |
| FileStore.Ensured | agent/tools.py:12-13 | `_ensure_root` keeps every file and folder; with a file in the way it changes nothing, and otherwise the root and its ancestors become folders |
| FileStore.BlockedRootFails | agent/tools.py:12-13 | with a file in the way of the root, every write and read fails with `mkdir`'s error and changes nothing |
| FileStore.SafeJoin | agent/tools.py:21-30 | the join succeeds with the resolved path exactly when it lies at or below the root, and fails with `ValueError` otherwise |
| FileStore.EnsureRootIdempotent | agent/tools.py:12-13 | ensuring the root twice is ensuring it once; files are untouched |
| FileStore.EscapeRejected | agent/tools.py:27-29 | when no file blocks the root, write and read fail with the invalid-path error exactly when the resolved path leaves the root, and then change nothing but the root |
| FileStore.ParentEscapeRejected | agent/tools.py:27-29 | when no file blocks the root, `../name` is refused by write and read |
| FileStore.AbsoluteOutsideRejected | agent/tools.py:27-29 | when no file blocks the root, an absolute path outside the root is refused by write and read |
| FileStore.RelativeAccepted | agent/tools.py:21-30 | a relative path of proper names is accepted, as the root extended by them |
| FileStore.WriteThenRead | agent/tools.py:33-59 | reading back a path just written successfully returns the written content with universal newlines applied |
| FileStore.WriteThenReadExact | agent/tools.py:33-59 | content without `\r` reads back exactly as written |
| FileStore.UniversalNewlines | agent/tools.py:56 | `read_text` turns `\r\n` and a lone `\r` into `\n`: no `\r` remains, text without `\r` is unchanged, and every other character stays, in order |
| FileStore.CrLfReadsAsLf | agent/tools.py:56 | `"x\r\ny"` reads back as `"x\ny"` |
| FileStore.Write | agent/tools.py:33-43 | with a file in the root's way it fails with `mkdir`'s error and changes nothing; on success the resolved path lies below the root, the result is its absolute path, and exactly that file now holds the content; on failure no file changes |
| FileStore.Read | agent/tools.py:46-59 | no file changes; with a file in the root's way it fails with `mkdir`'s error and changes nothing; returned text holds no `\r` |
| FileStore.WriteFrame | agent/tools.py:33-43 | a successful write changes exactly one file, to the content, and returns its absolute path; a failed write changes no file; no folder is removed |
| FileStore.WriteCreatesParents | agent/tools.py:41 | after a successful write every ancestor of the file is a folder |
| FileStore.WriteConfined | agent/tools.py:21-43 | a write changes nothing outside the root |
| FileStore.ConfinedTransitive | agent/tools.py:21-30 | confinement to the root composes across tool calls |
| FileStore.WithRootConfined | agent/tools.py:12-13 | ensuring the root is confined and keeps the tree well formed |
| FileStore.ReadConfined | agent/tools.py:46-59 | a read changes nothing but what ensuring the root creates |
| FileStore.ReadBelowRoot | agent/tools.py:46-54 | reading a fresh name below the root succeeds |
| FileStore.WriteBelowRoot | agent/tools.py:33-43 | writing a fresh name below the root succeeds and adds exactly that file |
| FileStore.PageWritten | agent/tools.py:33-54 | for a fresh name, the read succeeds and the following write leaves the content at that name |
| FileStore.ReadMissing | agent/tools.py:52-54 | when no file blocks the root, a missing file reads as `""` |
| FileStore.ReadUndecodable | agent/tools.py:55-59 | an undecodable file reads as `"[[binary file]]"` |
| FileStore.WithRootPreserves | agent/tools.py:12-13 | ensuring the root keeps the tree well formed and the root's ancestors free of files |
| FileStore.WritePreserves | agent/tools.py:40-42 | every write, successful or not, keeps the tree well formed and the root's ancestors free of files |
| FileStore.RelNameInjective | agent/tools.py:71 | distinct files below the root have distinct relative names |
| FileStore.ListingEmpty | agent/tools.py:62-72 | with no file below the root the listing is empty |
| FileStore.ListingOf | agent/tools.py:62-72 | the listing is the newline-join of a sorted sequence holding exactly the relative names of the files below the root |
| FileStore.ListedNamesStore | agent/tools.py:69-71 | storing a file below the root adds exactly its relative name |
| FileStore.WriteListed | agent/tools.py:33-72 | a successful write of a relative name adds exactly that name to what `list_files` reports |
| FileStore.ListingBy | agent/tools.py:68-72 | any distinct enumeration of the listed names, once sorted and joined with newlines, is the listing |
| FileStore.ListingOfSorted | agent/tools.py:72 | a sorted distinct enumeration joined with newlines is the listing |
| FileStore.ListingIsSorted | agent/tools.py:72 | files `b.txt`, `c.txt`, `a.txt` are listed as `a.txt\nb.txt\nc.txt` |
| FileStore.CollectNames | agent/tools.py:68-71 | the `rglob` loop collects each file's relative name once, and exactly the names of the files visited |
| FileStore.Workspace.constructor | agent/tools.py:9 | a workspace over any well-formed tree with a fixed root, a file in the root's way included |
| FileStore.Workspace.EnsureRoot | agent/tools.py:12-13 | the new tree is the old one with the root ensured; it fails with `mkdir`'s error exactly when a file is in the way |
| FileStore.Workspace.ResolveInRoot | agent/tools.py:21-30 | fails with `mkdir`'s error when a file blocks the root; otherwise returns the safe join; the root is ensured |
| FileStore.Workspace.WriteFile | agent/tools.py:33-43 | new tree and result are those of the write function on the old tree |
| FileStore.Workspace.ReadFile | agent/tools.py:46-59 | result and tree are those of the read function; no file changes; returned text holds no `\r` |
| FileStore.Workspace.ListFiles | agent/tools.py:62-72 | fails with `mkdir`'s error when a file blocks the root; otherwise returns the sorted, newline-joined relative names of all files below the root |
| FileStore.Workspace.GetCurrentDirectory | agent/tools.py:75-81 | fails with `mkdir`'s error when a file blocks the root; otherwise returns the root's absolute path; the root is ensured |
| Orchestrator.PlannerNode | agent/graph.py:21-29 | the planner touches no file; it raises a missing-key error without a prompt, raises exactly when the model answers `None`, and otherwise returns exactly the plan |
| Orchestrator.ArchitectNode | agent/graph.py:32-42 | the architect touches no file; it raises a missing-key error without a plan, raises exactly when the model answers `None`, and otherwise returns a task plan carrying the input plan and the model's steps |
| Orchestrator.CoderStartsAtZero | agent/graph.py:47-49 | with no coder state the coder starts at step 0 of the task plan |
| Orchestrator.CoderDoneIsNoop | agent/graph.py:51-53 | past the last step the coder reports "DONE" with the same cursor, touching no file and asking no oracle |
| Orchestrator.CoderNode | agent/graph.py:45-85 | a coder execution that returns either reports "DONE" past the end or moves the cursor by one; with no task plan it raises a missing-key error; otherwise it raises only when the read or the sub-agent does |
| Orchestrator.SubAgentFailureKeepsCursor | agent/graph.py:79-85 | when the sub-agent raises, the coder node raises and no advanced cursor is returned |
| Orchestrator.PromptEmbedsContent | agent/graph.py:70-77 | the prompt holds the file's read result between the two markers, at a known position |
| Orchestrator.PromptInjective | agent/graph.py:68-77 | different read results give different prompts |
| Orchestrator.RunToolsConfined | agent/graph.py:58 | any sequence of sub-agent tool calls changes nothing outside the root and keeps the tree well formed |
| Orchestrator.CoderConfined | agent/graph.py:45-85 | a coder execution changes nothing outside the root and keeps the tree well formed |
| Orchestrator.CoderTreeConfined | agent/graph.py:55-85 | whatever the sub-agent does, the tree a coder execution leaves changes nothing outside the root |
| Orchestrator.ReadThenToolsConfined | agent/graph.py:68-82 | reading the step's file, then any tool calls the sub-agent makes, change nothing outside the root |
| Graph.Run | agent/graph.py:88-103 | a run never executes more nodes than the ceiling, and executes at least one exactly when the ceiling is positive |
| Graph.Successor | agent/graph.py:95-100 | the run ends exactly after a coder execution whose status is "DONE"; otherwise planner goes to architect and everything else to coder |
| Graph.Invoke | agent/graph.py:102-108 | an invocation executes at most `limit` nodes, at least one exactly when the limit is positive, and aborts at once with a limit of 0 |
| Graph.RunStep | agent/graph.py:95-100 | a node that returns hands the run to its successor, one execution later |
| Graph.NodesCoderBehaves | agent/graph.py:45-85 | the coder node of the graph moves its cursor as the runner relies on |
| Graph.NodesKeepTree | agent/graph.py:21-85 | no node of the graph changes anything outside the root |
| Graph.ExecKeepsTree | agent/graph.py:21-85 | the planner and the architect leave the tree alone and the coder changes nothing outside the root |
| Graph.CompletedIsDone | agent/graph.py:97-100 | a run ends normally only after a coder execution that reported "DONE" with its cursor at the end |
| Graph.CoderRunCount | agent/graph.py:97-100 | a completed coder loop from step `k` of `n` took `n - k + 1` executions (one if already past the end) and ends with the cursor at `n` over the same task plan |
| Graph.CoderLoop | agent/graph.py:97-100 | when every step returns, the loop reaches "DONE" exactly when the ceiling covers its executions, and otherwise aborts at the ceiling |
| Graph.RunKeepsTree | agent/graph.py:88-103 | a run of nodes that keep the tree keeps it |
| Graph.DoneIsFinal | agent/graph.py:51-53 | with the cursor at the end, a coder run is one no-op execution reporting "DONE" |
| Graph.PipelineUnfold | agent/graph.py:95-96 | after two answered model calls the run continues as a coder run over the architect's task plan, two executions later |
| Graph.RunThroughArchitect | agent/graph.py:95-96 | for any nodes, a planner and an architect that return hand the run to the coder, two executions later |
| Graph.RunCount | agent/graph.py:88-108 | a completed run took exactly `n + 3` node executions for `n` steps, and ends in "DONE" with the cursor at `n` over the planner's plan |
| Graph.CeilingPreventsDone | agent/graph.py:107-108 | a ceiling below `n + 3` never lets a run finish |
| Graph.RunFromCursor | agent/graph.py:47-49 | two states the coder treats alike run alike |
| Graph.RunStartsAtZero | agent/graph.py:47-49 | a coder run over a task plan with no cursor yet is the run from cursor 0 |
| Graph.Progress | agent/graph.py:88-108 | with answers and every step returning, a ceiling of at least `n + 3` finishes in exactly `n + 3` executions, and any lower one aborts at the ceiling |
| Graph.RunProgress | agent/graph.py:88-108 | for any nodes whose planner, architect and coder steps return, the same exact count and ceiling behaviour |
| Graph.PipelineToCursor | agent/graph.py:95-96 | after the planner and the architect answer, the run is the coder loop from cursor 0 over the task plan, two executions later |
| Graph.RunToCursor | agent/graph.py:95-96 | for any nodes, after the planner and the architect return, the run is the coder run from a state the coder treats alike |
| Graph.TinyLimitAborts | agent/graph.py:106-108 | a ceiling of 0 or 1 aborts the run before the coder |
| Graph.InvokeKeepsTree | agent/graph.py:106-108 | whatever the oracles do, a run changes nothing outside the root |
| Graph.PageStep | agent/graph.py:55-85 | the single step of a one-page plan writes the page and moves the cursor to 1 |
| Graph.PageLoop | agent/graph.py:97-100 | the one-page coder loop finishes after two executions with the page written |
| Graph.PageRun | agent/graph.py:88-108 | the one-page request finishes in "DONE" after four node executions |
| Graph.SinglePage | agent/graph.py:106-108 | with a ceiling of 100, a one-page request finishes in four node executions with the page's content under the root |
| JsBuiltins.TrimStart | generated_site1/script.js:172 | leading white space is dropped; the rest starts with a visible character |
| JsBuiltins.TrimEnd | generated_site1/script.js:172 | trailing white space is dropped; the rest ends with a visible character |
| JsBuiltins.Trim | generated_site1/script.js:172 | a trimmed string neither starts nor ends with white space |
| JsBuiltins.TrimEmpty | generated_site1/script.js:172-173 | the trimmed text is empty exactly when the input is all white space |
| JsBuiltins.TrimIdempotent | generated_project1/app.js:148-149 | trimming twice is trimming once |
| JsBuiltins.FirstIndex | generated_site1/script.js:153-155 | `findIndex` gives the first matching index, or -1 exactly when nothing matches |
| JsBuiltins.Filter | generated_site1/script.js:64-68 | `filter` keeps exactly the elements that pass |
| JsBuiltins.FilterConcat | generated_site1/script.js:138 | filtering distributes over concatenation, so order is kept |
| JsBuiltins.FilterPartition | generated_site1/script.js:64-68 | a filter and its negation split the elements between them |
| JsBuiltins.FilterAll | generated_site1/script.js:67 | a filter everything passes returns its input |
| JsBuiltins.SortBy | generated_site1/script.js:39 | the sort is a permutation in key order |
| JsBuiltins.SortByStable | generated_project1/app.js:102 | elements with equal keys keep their relative order |
| JsBuiltins.SortByOfSorted | generated_site1/script.js:39 | sorting a list already in key order leaves it unchanged |
| JsBuiltins.InsertInPlace | generated_project1/app.js:102 | one insertion pass on the array gives the functional insertion |
| JsBuiltins.SortInPlace | generated_project1/app.js:102 | the in-place sort leaves the array equal to the stable sort of its old contents |
| Todo.LoadTasks | generated_site1/script.js:32-45 | loaded tasks are sorted by `order` and are the stored records with defaults applied; nothing usable stored gives `[]` |
| Todo.SaveThenLoad | generated_site1/script.js:32-50 | loading what was saved from a list in `order` gives that list back |
| Todo.FilterViewsSplit | generated_site1/script.js:64-66 | the "active" and "completed" views split the tasks between them |
| Todo.FilterOtherShowsAll | generated_site1/script.js:67 | any other filter value shows every task |
| Todo.Edited | generated_site1/script.js:128-135 | only the text of the first task with the id changes, to the new text |
| Todo.Toggled | generated_site1/script.js:143-150 | only the flag of the first task with the id flips |
| Todo.ToggleTwice | generated_site1/script.js:143-150 | toggling the same id twice restores the list |
| Todo.FilterTasks | generated_site1/script.js:64-68 | a task is shown exactly when it is in the list and passes the filter; no task is shown more often than it occurs |
| Todo.WithoutId | generated_site1/script.js:137-141 | no task with the id remains, every other task remains, and with no match the list is unchanged |
| Todo.WithoutIdConcat | generated_site1/script.js:138 | deletion keeps the survivors' relative order |
| Todo.Moved | generated_site1/script.js:156-159 | the dragged task lands at the target's index; with both positions taken out the lists agree; a permutation |
| Todo.Renumbered | generated_site1/script.js:161 | every task's `order` becomes its index and nothing else changes |
| Todo.RenumberedLoads | generated_site1/script.js:161-162 | a renumbered list is in `order`, so saving and reloading it gives it back |
| Todo.TodoApp.Init | generated_site1/script.js:318-320 | the page starts with the loaded tasks and the "all" filter |
| Todo.TodoApp.Render | generated_site1/script.js:59-68 | remembers the filter and shows the filtered tasks |
| Todo.TodoApp.AddTask | generated_site1/script.js:119-126 | appends one open task at the end and stores the list |
| Todo.TodoApp.EditTask | generated_site1/script.js:128-135 | the list becomes the edited list; it is stored only when a task matched |
| Todo.TodoApp.DeleteTask | generated_site1/script.js:137-141 | the list loses every task with the id and is always stored |
| Todo.TodoApp.ToggleComplete | generated_site1/script.js:143-150 | the list becomes the toggled list; it is stored only when a task matched |
| Todo.TodoApp.ReorderTasks | generated_site1/script.js:152-164 | a no-op for an unknown id or the same index; otherwise the moved and renumbered list, stored |
| Todo.TodoApp.HandleAdd | generated_site1/script.js:171-177 | blank input adds nothing; other input adds its trimmed text and clears the box |
| Todo.TodoApp.CommitEdit | generated_site1/script.js:243-257 | a non-blank trimmed value edits the task and stores the list only when a task matched; a blank one deletes it and always stores |
| Notebook.ToJson | generated_project1/app.js:25-32 | rebuilding a note from its `toJSON` fields gives the same note |
| Notebook.AllNotes | generated_project1/app.js:46-57 | nothing usable stored gives `[]`; otherwise one note per record |
| Notebook.StoreThenLoad | generated_project1/app.js:46-77 | reading back the stored notes gives the same notes |
| Notebook.Upserted | generated_project1/app.js:64-70 | a new id is appended; an existing id replaces its first match in place, length unchanged, nothing else changing |
| Notebook.UpsertedFinds | generated_project1/app.js:117 | after a save, finding by the note's id finds that note |
| Notebook.UpsertedIdempotent | generated_project1/app.js:64-70 | saving the same note twice is saving it once |
| Notebook.SavedFound | generated_project1/app.js:160-164 | after `saveNote`, reading the notes back and finding by the id gives the saved note |
| Notebook.WithoutNote | generated_project1/app.js:74-77 | no note with the id remains and every other note remains |
| Notebook.WithoutNoteConcat | generated_project1/app.js:75 | deletion keeps the surviving notes' relative order |
| Notebook.DeleteUndoesSave | generated_project1/app.js:59-77 | deleting an id after saving a note under it leaves what deleting before would |
| Notebook.NoteStorage.constructor | generated_project1/app.js:43-44 | storage over the one slot |
| Notebook.NoteStorage.GetAllNotes | generated_project1/app.js:46-57 | returns the notes of the slot |
| Notebook.NoteStorage.SaveNote | generated_project1/app.js:59-72 | a non-note stores nothing; a note stores the upserted list |
| Notebook.NoteStorage.DeleteNote | generated_project1/app.js:74-77 | stores the list without the id |
| Notebook.NewestFirst | generated_project1/app.js:102 | the sidebar order is a permutation with timestamps non-increasing |
| Notebook.NewestFirstHead | generated_project1/app.js:172-176 | the first note listed is at least as recent as every note |
| Notebook.Label | generated_project1/app.js:105 | a listed caption is never blank, and is the title when there is one |
| Notebook.Entries | generated_project1/app.js:103-111 | one entry per note, in order, with the note's id, a non-blank caption, and the highlight exactly on the selected note |
| Notebook.ListEntries | generated_project1/app.js:103-111 | one entry per note in order, highlighted exactly when it is the selected note |
| Notebook.Marked | generated_project1/app.js:124-126 | the highlight is on exactly for entries whose id is the selected one |
| Notebook.NotebookUi.constructor | generated_project1/app.js:96 | nothing selected, empty fields, empty list |
| Notebook.NotebookUi.RenderNoteList | generated_project1/app.js:99-112 | the array is sorted in place newest first, and the list shows it |
| Notebook.NotebookUi.MarkSelected | generated_project1/app.js:123-126 | every entry's highlight is reset from its id |
| Notebook.NotebookUi.LoadNoteIntoEditor | generated_project1/app.js:115-127 | an unknown id changes nothing; otherwise the first note with the id is selected and shown |
| Notebook.NotebookUi.ClearEditor | generated_project1/app.js:130-137 | no selection, empty fields, no highlight |
| Notebook.NotebookUi.Redraw | generated_project1/app.js:162-163 | the stored notes are listed newest first under the current selection, and the sorted notes are returned |
| Notebook.NotebookUi.OnSave | generated_project1/app.js:147-165 | saves the trimmed fields under the selected id, or a fresh one when none is selected, and selects the saved note |
| Notebook.NotebookUi.OnDelete | generated_project1/app.js:168-178 | without a selection nothing happens; otherwise the note is deleted; with none left the editor is empty and the list too; else the newest remaining note is selected, its first stored match fills the fields, and the list shows the rest newest first with it highlighted |

## Left out

- Symbolic links: `Path.resolve` is modelled lexically; links on disk are not followed.
- The POSIX root `//`, which `pathlib` keeps as two slashes, is not distinguished from `/`.
- UTF-8 decoding: a file is either text or undecodable, and the decoder itself is not modelled.
- `rglob` enumeration order is left open: `CollectNames` visits the entries in any order, and the sort makes the result independent of it.
- Operating-system errors other than a regular file in the way of a folder to create, or a path that is a folder, are not modelled (permissions, full disk).
- Newline translation on write: `write_text` is modelled as on POSIX, where it stores the text as given; the Windows translation of `\n` to `\r\n` is not modelled.
- The language-model calls (`ChatGroq`, `with_structured_output`, `create_react_agent`) are oracles. The prompt modules, `render_text_description` and the system prompt are not part of this model.
- The sub-agent's conversation is not modelled: what it reads or lists does not feed back into its later calls; only its file writes reach the tree.
- The graph runtime's own recursion accounting is modelled as a ceiling on node executions.
- LangGraph's state merge: with `StateGraph(dict)` each node's returned dict is taken as the whole new state.
- `Orchestrator.CoderNode`: the in-place `current_step_idx += 1` is modelled as a new cursor value in the returned state, the only place the object is read again.
- `set_debug`, `set_verbose`, `load_dotenv` and the `__main__` driver are not modelled. `Graph.SinglePage` states the run with the ceiling of 100 the driver uses.
- `Graph.SinglePage`: stated for any page name, task text and content, with oracles that plan one step and have the sub-agent write the page.
- The DOM of both apps (element construction, `escapeHTML`, drag-and-drop listeners, keyboard shortcuts, focus) is not modelled; the sidebar is modelled as a list of entries.
- `localStorage`, `JSON.parse` and `JSON.stringify` become a slot holding records, or absent, or unparseable. Records with missing `id`, `text` or `title` fields are not modelled.
- `crypto.randomUUID`, `Storage.generateId` and `Date.now` are parameters of the operations that use them.
- `Todo.LoadTasks`: one `now` value stands for the `Date.now()` default of every record loaded in the same call.
- JavaScript numbers are modelled as unbounded integers: `NaN` keys, fractional orders and timestamps are not modelled.
- Tasks and notes are values: the aliasing between the list and the task objects it holds is not modelled, and in-place field updates become updates of the list.
- `debug_agent.py`, `test_debug.py`, `debug_utils.py` and `debug_config.py` are not part of this model: they are driver, logging and configuration code.
