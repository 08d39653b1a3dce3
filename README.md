# Finder desktop: a verified model of its state and rules

This project models the logic behind a browser "desktop" whose Finder
window browses a small virtual file system. There are two state holders and
a few pure rules on top of them.

- **File-system hook.** A flat list of nodes (`id`, `name`, folder or file,
  `parentId`, optional `tags`, `size`, `modified`). The tree is encoded by
  `parentId`. A cursor names the folder being shown. The model covers:
  - loading from a stored snapshot or the seed;
  - the derived current folder, listing, breadcrumbs and sidebar;
  - navigation, creation, cascading deletion and renaming.
- **Window-manager hook.** A fixed list of window records: flags,
  geometry, z-index. One global z-index counter only grows.
- **Search bar.** A case-insensitive filter over every node, capped at
  twelve hits, plus where selecting a hit navigates.
- **Desktop shell.** The click rules for desktop and dock icons. They choose
  between bring-to-front, focus and open. Also the subset of windows that get
  a desktop icon.
- **File list.** The folders-first, then by-name sort; the icon chosen by
  file extension; the colour class of a tag chip.
- **Mock assistant.** The canned answer of the first keyword entry the
  lowercased message mentions.

Modules:

- `Wrappers` (Option).
- `Seqs`: order-preserving filter, find and slice.
- `Text`: `trim`, ASCII `toLowerCase`, `includes`.
- `FileSystem`, `WindowManager`, `Search`, `Desktop`, `FileList`, `Assistant`.

Where the source changes state, the model has a class with the same fields:
`FileSystem.Store` holds `items` and `cursor`, and `WindowManager.Manager`
holds `windows` and `nextZ`. Each method is proved equal to a pure function
of the old state, and the lemmas are proved about those functions. The
folder-collecting recursion of `deleteItem` and the walk of `breadcrumbs` are
methods with loops. So is the counter-drawing `map` of `toggleMaximize` and
`focusWindow`.

## Model

| member | source | states |
|---|---|---|
| `Text.Trim` | finder-app/client/src/hooks/useFileSystem.js:92 | The trimmed name is a slice of the name with only ECMAScript white space cut off before and after it. It is empty exactly when the name is all white space; otherwise it starts and ends with a non-space. |
| `Text.TrimIdempotent` | finder-app/client/src/hooks/useFileSystem.js:144 | Trimming an already trimmed name changes nothing. |
| `Seqs.FilterCounts` | finder-app/client/src/hooks/useFileSystem.js:139 | `filter` keeps every copy of each element that passes and no copy of any other, so together with order it fixes the result. |
| `Text.ContainsIff` | finder-app/client/src/components/SearchBar.jsx:27 | `includes` holds exactly when the needle occurs at some offset of the haystack. |
| `Text.ContainsLower` | finder-app/client/src/components/SearchBar.jsx:27-29 | A substring stays a substring after both strings are lowercased. |
| `FileSystem.Load` | finder-app/client/src/hooks/useFileSystem.js:31-43 | The result is never empty. It is the stored array when that is non-empty, and the seed when the snapshot is missing, unreadable, not an array or empty. |
| `FileSystem.SeedHasOneRoot` | finder-app/client/src/hooks/useFileSystem.js:10-29 | The seed's first node is the folder `root`. It is the only node without a parent, and all seed ids are distinct. |
| `FileSystem.SeedAcyclic` | finder-app/client/src/hooks/useFileSystem.js:10-29 | The seed's parent links form no cycle. |
| `FileSystem.LoadRoundTrip` | finder-app/client/src/hooks/useFileSystem.js:34-36 | A non-empty stored array loads back unchanged. |
| `FileSystem.EmptySnapshotReseeds` | finder-app/client/src/hooks/useFileSystem.js:36-42 | A stored empty array loads as the seed again. |
| `FileSystem.CurrentFolder` | finder-app/client/src/hooks/useFileSystem.js:56 | The first node whose id is the cursor. If there is none, the first node. Nothing only when the list is empty. |
| `FileSystem.Children` | finder-app/client/src/hooks/useFileSystem.js:59-61 | At the root: exactly the files, from every folder. Elsewhere: exactly the nodes whose parent is the cursor. Stored order is kept in both cases. |
| `FileSystem.SidebarFolders` | finder-app/client/src/hooks/useFileSystem.js:75-77 | Exactly the folders directly under the root, in stored order. |
| `FileSystem.FolderHasFilesMatchesListing` | finder-app/client/src/components/FinderWindow.jsx:23-25 | Away from the root, the indicator is lit exactly when the folder's own listing shows a file. |
| `FileSystem.ParentOf` | finder-app/client/src/hooks/useFileSystem.js:69 | The node the parent link resolves to is the first node in the list with the parent's id. Nothing exactly when no node has that id. |
| `FileSystem.Breadcrumbs` | finder-app/client/src/hooks/useFileSystem.js:64-72 | Assumes only that the walk up from the current folder ends, which is exactly when the source's loop terminates. The trail ends at the current folder, and each crumb is the resolved parent of the next. The first crumb's parent does not resolve. The trail is empty only when there is no current folder. |
| `FileSystem.AcyclicBreadcrumbsEnd` | finder-app/client/src/hooks/useFileSystem.js:67-70 | In an acyclic tree the walk up from the current folder always ends. |
| `FileSystem.BreadcrumbsUnique` | finder-app/client/src/hooks/useFileSystem.js:64-72 | Two trails with the breadcrumb properties that end at the same node are equal, so the trail is determined. |
| `FileSystem.UpTarget` | finder-app/client/src/hooks/useFileSystem.js:84-88 | When the current folder has a truthy parent id, the cursor becomes that id. It moves nowhere else, and at a folder without a parent it stays. |
| `FileSystem.UpShowsParentCrumb` | finder-app/client/src/hooks/useFileSystem.js:84-88 | Going up shows the folder the current folder's parent link resolves to, the crumb before it in the trail. |
| `FileSystem.CreatePreservesTree` | finder-app/client/src/hooks/useFileSystem.js:94-100 | Appending a node under an unused id keeps ids unique and the tree acyclic. |
| `FileSystem.ChildrenOf` | finder-app/client/src/hooks/useFileSystem.js:134-135 | Exactly the nodes whose parent is the given id. |
| `FileSystem.Collect` | finder-app/client/src/hooks/useFileSystem.js:131-138 | The recursive collection adds to the set exactly the closure of the target: the target and, per child, the child's closure. |
| `FileSystem.ClosureSound` | finder-app/client/src/hooks/useFileSystem.js:132-137 | Every collected id other than the target has a chain of parent links up to the target. |
| `FileSystem.ClosureComplete` | finder-app/client/src/hooks/useFileSystem.js:132-137 | Every node with a chain of parent links up to the target is collected. |
| `FileSystem.ClosureIff` | finder-app/client/src/hooks/useFileSystem.js:132-137 | Collected exactly when the id is the target or lies below it. |
| `FileSystem.AfterDelete` | finder-app/client/src/hooks/useFileSystem.js:128-141 | The survivors are exactly the nodes neither equal to nor below the target, in original relative order. No survivor has the target's id. |
| `FileSystem.CollectedIsDeleted` | finder-app/client/src/hooks/useFileSystem.js:138-139 | Filtering out the collected ids yields exactly the survivors. |
| `FileSystem.DeleteUnreferenced` | finder-app/client/src/hooks/useFileSystem.js:128-141 | When no node has the target as parent, deletion removes only the nodes with the target's id. |
| `FileSystem.DeletePreservesTree` | finder-app/client/src/hooks/useFileSystem.js:139 | Deletion keeps ids unique and the tree acyclic. |
| `FileSystem.DeleteExample` | finder-app/client/src/hooks/useFileSystem.js:128-141 | In root → A → B → C, with a file under B and a sibling E of A, deleting A leaves exactly root and E. |
| `FileSystem.Renamed` | finder-app/client/src/hooks/useFileSystem.js:146-148 | Same length. Every field except the name is kept. The name changes exactly at the nodes with the id. |
| `FileSystem.RenameProperties` | finder-app/client/src/hooks/useFileSystem.js:143-149 | Renaming is idempotent. It keeps ids unique and the tree acyclic, and is the identity for an id that no node has. |
| `FileSystem.Store.constructor` | finder-app/client/src/hooks/useFileSystem.js:47-48 | The items are the loaded snapshot and the cursor is `root`. |
| `FileSystem.Store.Navigate` | finder-app/client/src/hooks/useFileSystem.js:80-82 | The cursor becomes the target, unchecked; the items stay. |
| `FileSystem.Store.NavigateUp` | finder-app/client/src/hooks/useFileSystem.js:84-88 | The cursor becomes `UpTarget` of the old state, so it moves to a truthy parent id and only there; the items stay. |
| `FileSystem.Store.CreateFolder` | finder-app/client/src/hooks/useFileSystem.js:90-104 | A blank name changes nothing and returns nothing. Otherwise it appends one folder with the trimmed name, the fresh id and the given parent (the cursor when omitted). All earlier nodes are kept. |
| `FileSystem.Store.CreateFile` | finder-app/client/src/hooks/useFileSystem.js:106-126 | As for folders. The file also gets no tags, size `0 KB` and the given date. |
| `FileSystem.Store.DeleteItem` | finder-app/client/src/hooks/useFileSystem.js:128-141 | The items become `AfterDelete` of the old items; the cursor stays. |
| `FileSystem.Store.RenameItem` | finder-app/client/src/hooks/useFileSystem.js:143-149 | A blank name changes nothing. Otherwise the items become `Renamed` with the trimmed name. |
| `WindowManager.InitialLayout` | finder-app/client/src/hooks/useWindowManager.js:21-39 | See the note below the table. |
| `WindowManager.Update` | finder-app/client/src/hooks/useWindowManager.js:44-50 | In each window with the id, every field the patch names takes the patch's value and every other field is kept. Other windows and the length are unchanged. |
| `WindowManager.AllocMapUnique` | finder-app/client/src/hooks/useWindowManager.js:79-100 | With unique ids, the counter-drawing map changes only the window with the id and draws one value. For an unknown id it changes nothing and draws none. |
| `WindowManager.ApplyFrame` | finder-app/client/src/hooks/useWindowManager.js:44-110 | Every call keeps length and ids, and changes no window but the target. The counter grows by one for bring-to-front and open, or for a maximize toggle or focus that finds its window; otherwise it stays. |
| `WindowManager.ApplyPreservesValid` | finder-app/client/src/hooks/useWindowManager.js:18 | Every call keeps ids distinct, z-indices distinct and every z-index below the counter. |
| `WindowManager.AllocatedIsTop` | finder-app/client/src/hooks/useWindowManager.js:52-100 | A z-allocating call gives its window the counter's old value, which is strictly above every other window. |
| `WindowManager.FrontEffect` | finder-app/client/src/hooks/useWindowManager.js:52-58 | Bring-to-front changes only the target's z-index. |
| `WindowManager.OpenFocusEffect` | finder-app/client/src/hooks/useWindowManager.js:61-100 | Open and focus set open, clear minimized and give a fresh z-index. They keep maximized and the geometry. |
| `WindowManager.CloseEffect` | finder-app/client/src/hooks/useWindowManager.js:69-72 | Close clears all three flags. It keeps the z-index and geometry and draws nothing. |
| `WindowManager.MinimizeEffect` | finder-app/client/src/hooks/useWindowManager.js:74-77 | Minimize sets only the minimized flag and draws nothing. |
| `WindowManager.ToggleTwice` | finder-app/client/src/hooks/useWindowManager.js:79-87 | One toggle negates maximized. Two toggles restore it but leave a newer z-index, having drawn two values. |
| `WindowManager.GeometryEffect` | finder-app/client/src/hooks/useWindowManager.js:102-110 | Move and resize replace only the target's position or size. |
| `WindowManager.UnknownIdEffect` | finder-app/client/src/hooks/useWindowManager.js:44-110 | A call on an unknown id changes no window. Bring-to-front and open still draw a counter value. |
| `WindowManager.RunFresh` | finder-app/client/src/hooks/useWindowManager.js:18 | Over any sequence of calls the state stays valid and the counter never decreases. Every changed z-index was drawn during the run. |
| `WindowManager.AllocLoop` | finder-app/client/src/hooks/useWindowManager.js:82-96 | The loop that draws the counter per matching window computes the counter-drawing map. |
| `WindowManager.Manager.constructor` | finder-app/client/src/hooks/useWindowManager.js:21-41 | The records are the initial layout for the viewport, or 1280×800 without one. Valid when the def ids are distinct. |
| `WindowManager.Manager.BringToFront` | finder-app/client/src/hooks/useWindowManager.js:52-58 | New state is `Apply(old, Front(id))`; validity is kept. |
| `WindowManager.Manager.OpenWindow` | finder-app/client/src/hooks/useWindowManager.js:61-67 | New state is `Apply(old, Open(id))`; validity is kept. |
| `WindowManager.Manager.CloseWindow` | finder-app/client/src/hooks/useWindowManager.js:69-72 | New state is `Apply(old, Close(id))`; validity is kept. |
| `WindowManager.Manager.MinimizeWindow` | finder-app/client/src/hooks/useWindowManager.js:74-77 | New state is `Apply(old, Minimize(id))`; validity is kept. |
| `WindowManager.Manager.ToggleMaximize` | finder-app/client/src/hooks/useWindowManager.js:79-87 | New state is `Apply(old, ToggleMax(id))`; validity is kept. |
| `WindowManager.Manager.FocusWindow` | finder-app/client/src/hooks/useWindowManager.js:89-100 | New state is `Apply(old, Focus(id))`; validity is kept. |
| `WindowManager.Manager.MoveWindow` | finder-app/client/src/hooks/useWindowManager.js:102-105 | New state is `Apply(old, Move(id, p))`; validity is kept. |
| `WindowManager.Manager.ResizeWindow` | finder-app/client/src/hooks/useWindowManager.js:107-110 | New state is `Apply(old, Resize(id, s))`; validity is kept. |
| `Search.Results` | finder-app/client/src/components/SearchBar.jsx:21-34 | See the note below the table. |
| `Search.AllHits` | finder-app/client/src/components/SearchBar.jsx:24-32 | Exactly the nodes that are hits for the lowercased query, as a subsequence of the stored order. |
| `Search.EarlyHitShown` | finder-app/client/src/components/SearchBar.jsx:24-33 | A hit with fewer than 12 hits before it in stored order is among the results. |
| `Search.ResultsIgnoreQueryCase` | finder-app/client/src/components/SearchBar.jsx:23 | A query and its lowercase form give the same results. |
| `Search.NameHit` | finder-app/client/src/components/SearchBar.jsx:27 | A non-root node whose name contains the query, in any case, is a hit. |
| `Search.SelectTarget` | finder-app/client/src/components/SearchBar.jsx:61-67 | Selecting a folder navigates to its id; selecting a file navigates to its parent id. |
| `Search.SelectOpensFolder` | finder-app/client/src/components/SearchBar.jsx:62-63 | With unique ids, selecting a folder makes it the current folder. |
| `Search.SelectShowsFile` | finder-app/client/src/components/SearchBar.jsx:64-67 | Selecting a file shows a listing that contains it. |
| `Desktop.InitialDesktop` | finder-app/client/src/components/Desktop.jsx:19-26 | The registry yields six valid records. Exactly Finder is open; none is minimized or maximized. |
| `Desktop.FindWindow` | finder-app/client/src/components/Desktop.jsx:74 | Finds the first window with the id, or nothing exactly when none has it. |
| `Desktop.IconClickOp` | finder-app/client/src/components/Desktop.jsx:73-81 | Nothing for an unknown id. Otherwise bring-to-front or open, aimed at the id. |
| `Desktop.DockClickOp` | finder-app/client/src/components/Desktop.jsx:84-94 | Nothing for an unknown id. Otherwise focus, bring-to-front or open, aimed at the id. |
| `Desktop.IconClickShows` | finder-app/client/src/components/Desktop.jsx:73-81 | After an icon click on a known window, it is open, not minimized and strictly on top with the counter's old value. Maximized and geometry are kept. |
| `Desktop.DockClickShows` | finder-app/client/src/components/Desktop.jsx:84-94 | The same after a dock click, in each of its three cases. |
| `Desktop.UnknownClickIgnored` | finder-app/client/src/components/Desktop.jsx:74-87 | Icon and dock clicks on an unknown id change nothing and draw nothing. |
| `Desktop.DesktopIcons` | finder-app/client/src/components/Desktop.jsx:105-107 | The subsequence of the windows whose id is finder, trash, notes or terminal. |
| `Desktop.InitialIcons` | finder-app/client/src/components/Desktop.jsx:105-107 | On the initial desktop the icons are Finder, Trash, Notes and Terminal, in that order. |
| `Desktop.HandleIconClick` | finder-app/client/src/components/Desktop.jsx:73-81 | The manager's new state is the dispatched icon rule applied to the old state. |
| `Desktop.HandleDockClick` | finder-app/client/src/components/Desktop.jsx:84-94 | The manager's new state is the dispatched dock rule applied to the old state. |
| `Desktop.HandleFocusFinder` | finder-app/client/src/components/Desktop.jsx:100-102 | Focusing Finder is an icon click on `finder`. |
| `Desktop.SelectSearchResult` | finder-app/client/src/components/SearchBar.jsx:61-71 | Selecting a hit sets the cursor to its target, keeps the items and then focuses Finder. |
| `FileList.NameCompare` | finder-app/client/src/components/FileList.jsx:86 | Zero exactly for equal names. Negative exactly when the first name comes strictly earlier, positive exactly when it comes strictly later. |
| `FileList.LexLeTransitive` | finder-app/client/src/components/FileList.jsx:86 | The name order is transitive. |
| `FileList.CompareFlips` | finder-app/client/src/components/FileList.jsx:83-87 | Swapping the comparator's arguments swaps the sign of its result. |
| `FileList.Insert` | finder-app/client/src/components/FileList.jsx:83-87 | Inserting keeps a sorted list sorted and adds exactly the new node. |
| `FileList.SortItems` | finder-app/client/src/components/FileList.jsx:83-87 | The copy is sorted by the comparator and is a permutation of the input. |
| `FileList.FoldersFirst` | finder-app/client/src/components/FileList.jsx:84-85 | In a sorted list every folder stands before every file. |
| `FileList.NamesInOrder` | finder-app/client/src/components/FileList.jsx:86 | In a sorted list, nodes of the same kind appear in non-decreasing name order. |
| `FileList.SortedListing` | finder-app/client/src/components/FileList.jsx:83-87 | The sorted listing puts folders first, and within each kind names do not decrease. |
| `FileList.LastDot` | finder-app/client/src/components/FileList.jsx:21 | The index of a dot with no dot after it, or -1 when the name has no dot. |
| `FileList.LastSegment` | finder-app/client/src/components/FileList.jsx:21 | The result is a dot-free suffix of the name. It is preceded by a dot unless it is the whole name. |
| `FileList.NoDotWholeName` | finder-app/client/src/components/FileList.jsx:21 | A name without a dot is its own extension. |
| `FileList.ExtensionOfJoin` | finder-app/client/src/components/FileList.jsx:21 | For `base.ext`, with no dot in `ext`, the extension is `ext`, whatever `base` holds. |
| `FileList.ExtensionIgnoresCase` | finder-app/client/src/components/FileList.jsx:21 | The lowercased extension does not depend on the name's letter case. |
| `FileList.IconFor` | finder-app/client/src/components/FileList.jsx:19-25 | See the note below the table. |
| `FileList.IconOfJoin` | finder-app/client/src/components/FileList.jsx:21-24 | A file named `base.ext` gets its icon from the lowercase of `ext` alone. |
| `FileList.IconIgnoresCase` | finder-app/client/src/components/SearchBar.jsx:6-12 | Lowercasing a name keeps its icon. The search dropdown's icon rule is the same function. |
| `FileList.TagColor` | finder-app/client/src/components/FileList.jsx:27-44 | A listed tag gets its class and any other tag the neutral class; never empty. |
| `FileList.TagColorCaseSensitive` | finder-app/client/src/components/FileList.jsx:43 | `NDA` and `Photo` get their colours, while `nda` and `photo` get the neutral class. |
| `FileList.UnlistedSeedTag` | finder-app/client/src/components/FileList.jsx:43 | The seed tag `Brief`, which the table lacks, gets the neutral class. |
| `Assistant.Choice` | finder-app/client/src/lib/mockAIService.js:66-74 | See the note below the table. |
| `Assistant.FindResponse` | finder-app/client/src/lib/mockAIService.js:66-74 | The loop over the table returns the chosen entry's answer, or the fallback when there is no choice. |
| `Assistant.ChoiceIgnoresCase` | finder-app/client/src/lib/mockAIService.js:67 | A message and its lowercase form choose the same entry. |
| `Assistant.InvoiceGetsPaymentAnswer` | finder-app/client/src/lib/mockAIService.js:66-72 | A message containing `invoice` chooses the payment entry, whatever later entries it also mentions. |
| `Assistant.UpperCaseKeywordCounts` | finder-app/client/src/lib/mockAIService.js:67-69 | A message containing `INVOICE` in capitals also chooses the payment entry. |

Notes on four rows:

- `WindowManager.InitialLayout`:
  - Record i keeps the def's id and title.
  - Each flag is set exactly when the def sets it to true.
  - Record i's z-index is above those of all earlier records.
  - Its width is the smaller of 780 and the viewport width minus 100.
  - Its height is the smaller of 500 and the viewport height minus 140.
  - x is the smaller of 80+30i and the viewport width minus the width minus 20,
    so the right edge is at least 20 from the viewport's.
  - y is the smaller of 60+30i and the viewport height minus the height minus 80,
    so the bottom edge is at least 80 from the viewport's.
  - The state is valid when the def ids are distinct.
- `Search.Results`:
  - A blank query gives no results.
  - There are at most 12 results, and they are a subsequence of the nodes.
  - The root is never a result.
  - Every result's lowercased name, or one of its lowercased tags, contains
    the lowercased, untrimmed query.
  - With fewer than 12 results, every hit is among them.
  - The count is the smaller of 12 and the number of hits.
  - The results are a prefix of all hits in stored order, so they are the
    first twelve hits.
- `FileList.IconFor`:
  - Folder icon exactly for folders.
  - For a file, `Image` exactly when the lowercased extension is in the image list.
  - `FileText` exactly when it is not in the image list but is in the text list.
  - Otherwise `File`.
- `Assistant.Choice`:
  - The choice is the first entry, in table order, with a keyword inside the
    lowercased message.
  - There is no choice exactly when no entry has one.
  - The reply table's keyword lists and answers are kept as two parallel
    tables, entry for entry.

## Left out

- **Browser storage, JSON parsing and persistence.** `localStorage`, `JSON.parse` and the persisting effect are outside the model. The stored value is an `Option<seq<Node>>` argument of `Load`. `None` stands for missing, unparsable or non-array data.
- **Fresh ids.** The random id generator is replaced by a `freshId` parameter.
- **Dates.** The locale-formatted date of a new file is replaced by a `today` parameter.
- **Viewport.** Its width and height are an optional `Viewport` parameter of the window-manager constructor. Without one, 1280×800 is used.
- **Acyclicity precondition.**
  - `FileSystem.Breadcrumbs` requires only that the walk up from the current folder ends. The source's loop diverges exactly when that walk reaches a cycle.
  - `FileSystem.Store.DeleteItem` requires the whole parent relation to be acyclic. The source's `collect` recursion diverges only when a cycle is reachable below the target. So the model demands more than the source does: a cycle elsewhere in the list, which `FileSystem.Load` accepts, makes a delete that the source completes fall outside the model.
  - The model does not capture the divergence itself.
  - The acyclicity lemmas show that loading the seed, creating under an unused id, deleting and renaming all keep the tree acyclic.
- **Letter case.** `toLowerCase` is modelled on ASCII letters only, and full Unicode case mapping is not modelled. This affects `Search.Results`, `FileList.Extension` and `Assistant.FindResponse`.
- **Name order.** `localeCompare` is modelled as code-point lexicographic order. Locale collation (accents, case folding, numeric segments) is not modelled.
- **Tie order in the sort.**
  - `FileList.SortItems` is a stable insertion sort, so ties between same-kind nodes with equal names keep input order, as in JavaScript's stable sort.
  - Its contract does not state the tie order.
  - `FileList.SortItems` does not model `Array.prototype.sort` mutating its receiver: the source sorts a copy, and the model returns a new sequence.
- **Inherited keys in `tagColor`.** The source looks tags up in an object literal, so a tag named like an inherited property (for example `constructor`) would yield that property. `FileList.TagColor` does not model prototype lookup: its table holds only the thirteen listed keys.
- **Extra fields in window defs.** The defs are spread last, so a def could also override `zIndex`, `position` or `size`. The registry sets only `isOpen` (Finder), and the model's `WindowDef` carries only the three flags. The `icon` field is presentation and is left out.
- **The counter across mounts.** The counter is module-level, so a second mount of the hook would continue from where the first stopped. `WindowManager.Manager.constructor` starts it at 10, as on the first mount.
- **React scheduling.**
  - StrictMode may run state updaters twice, which would draw extra counter values. Each call is modelled as one atomic step.
  - The model also treats an update as applied at once. In React it is queued, and `handleIconClick` reads the rendered window list.
- **Search-bar UI state.** After a selection, `handleSelect` clears the query and closes the dropdown. This UI state is not modelled; `Desktop.SelectSearchResult` covers the navigation and the focus.
- **Assistant timing.** `sendMessage` (Promise, random delay, timer) is asynchronous plumbing around `findResponse` and is not modelled.
- **Presentation.** All rendering, animation and DOM event handling are outside the model. This includes outside-click and keyboard handlers, drag offsets, the context menu and the chat panel's bold-text splitting. So is the server stub.
- **Behaviours kept as the code has them.**
  - Navigation does not check its target.
  - Deleting `root` deletes every node below it.
  - The root can be renamed.
  - Close keeps the window's z-index.
