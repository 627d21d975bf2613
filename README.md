# fs-notes: a verified model of the editor's state and storage rules

fs-notes is a browser notes editor that stores plain-text notes either in a
local folder, through the File System Access API, or in Google Drive. This
project models the logic that sits between the editor UI and those two
backends, and proves what that logic promises:

- **Default file names** (`Filename`): `padZero` and `generateDefaultFileName`.
  The clock is passed in as date components. A reference parser reads a name
  back. This proves that a name built from fixed-width components has 25
  characters and gives back every component, with the month as
  `getMonth() + 1`.
- **Operation tracker** (`Loading`): the `loadingState` store as a class over a
  list of `(operation, fileId?, fileName?)` records, with `start`, `end` and
  `clear`. It includes the rule that `end` with an absent or empty id removes
  every record of that operation.
- **Tab session** (`Tabs`): the `tabs` and `activeTabId` stores as one class.
  It covers open with de-duplication by path, close with a neighbour
  activated, creation of an unsaved tab, the dirty, saved and bind updates,
  and bulk close by storage. Each operation keeps the active id pointing at a
  listed tab, or at nothing. Closing, bulk closing and the updates keep ids
  distinct; opening and creating keep them distinct when the new id is fresh.
- **Shared tree rules** (`NodeOrder`): the "directories first, then by name"
  comparator, with `localeCompare` as a parameter. It also holds the stable
  sort, the `parentPath/name` join, and `split('/')` with empty segments
  dropped.
- **Local folder service** (`LocalFs`): `buildFileTree`, `createFile`,
  `createDirectory` and `getHandleByPath` over an in-memory directory. A
  directory can be made to throw part-way through its enumeration. The module
  also models the loading bracket around `readFile`, `writeFile` and
  `createFile`.
- **Google Drive service** (`Drive`): `buildDriveFileTree` over a map from
  folder id to that folder's listing, where `None` is a failed listing. It
  also covers the `multipart/related` upload body (RFC 2387, with delimiters
  as in section 5.1.1 of RFC 2046) and a reader that takes the body apart
  again. The token guard and loading bracket of `readDriveFile`,
  `writeDriveFile` and `createDriveFile` are modelled too.
- **JSON strings** (`Json`): `JSON.stringify` of a string, as section 25.5.2
  of ECMA-262 quotes it, and a reader that inverts it. Both upload metadata
  objects are built with it.

The browser and network are modelled by their answers, which the operations
take as parameters:

- the directory contents;
- the Drive listings;
- the stored token;
- the settled `fetch` (a response with `ok`, `statusText` and body, or a
  rejection);
- the result of the browser's file read or write.

`Date.now()` and `new Date()` are parameters too.

## Model

| member | source | states |
|---|---|---|
| Filename.PadZero | src/lib/utils/filename.ts:1-3 | padding a non-negative number gives only decimal digits |
| Filename.PadZeroShape | src/lib/utils/filename.ts:1-3 | `padStart` never truncates: the result is the number's decimal form preceded only by zeros, as long as `length` or the decimal form, whichever is longer |
| Filename.PadZeroRoundTrip | src/lib/utils/filename.ts:1-3 | for 0 ≤ n < 100 the padded form is exactly two digits that read back as n |
| Filename.DigitsRoundTrip | src/lib/utils/filename.ts:2 | the decimal digits of a natural number read back as that number |
| Filename.MinusSign | src/lib/utils/filename.ts:2 | `toString()` starts with `-` exactly for negative numbers |
| Filename.DecimalStringInjective | src/lib/utils/filename.ts:2 | two integers print the same exactly when they are equal |
| Filename.CalendarIsFixedWidth | src/lib/utils/filename.ts:8-14 | any calendar instant of a four-digit year (day 1-31, zero-based month 0-11, hours, minutes, seconds) has fixed-width fields |
| Filename.DecimalString | src/lib/utils/filename.ts:2 | `num.toString()`: at least one character, and only digits for a non-negative number |
| Filename.GenerateDefaultFileName | src/lib/utils/filename.ts:5-17 | definition; no contract of its own, its properties are the round-trip and injectivity lemmas |
| Filename.ParseDefaultFileName | src/lib/utils/filename.ts:16 | definition; no contract; the reference reader of the name's fixed layout, used by the round trip |
| Filename.DefaultFileNameRoundTrip | src/lib/utils/filename.ts:5-17 | for fixed-width components the name has 25 characters, starts with `notes_`, ends with `.txt`, and the parser gives back every component, the month field being `getMonth() + 1` |
| Filename.DefaultFileNameInjective | src/lib/utils/filename.ts:5-17 | names of fixed-width instants are equal exactly when the instants are |
| Loading.Started | src/lib/stores/loading.ts:22-24 | definition; no contract; the list after `start`, specifying `LoadingStore.Start` |
| Loading.Ended | src/lib/stores/loading.ts:25-29 | definition; no contract; the list after `end`, specifying `LoadingStore.End` and described by the lemmas below |
| Loading.LoadingStore.constructor | src/lib/stores/loading.ts:18 | the store starts empty |
| Loading.LoadingStore.Start | src/lib/stores/loading.ts:22-24 | appends exactly one record `(operation, fileId, fileName)` and keeps the earlier records |
| Loading.LoadingStore.End | src/lib/stores/loading.ts:25-29 | the new list is the old one filtered; a record survives exactly when it was there and `end` does not match it; the list never grows |
| Loading.LoadingStore.Clear | src/lib/stores/loading.ts:30-32 | the list becomes empty |
| Loading.EndWithId | src/lib/stores/loading.ts:25-29 | with a non-empty id, `end` removes exactly the records of that operation and that id |
| Loading.EndWithoutId | src/lib/stores/loading.ts:27 | with the id absent or empty, `end` removes every record of that operation and keeps all others |
| Loading.EndedCount | src/lib/stores/loading.ts:26-28 | `end` drops every copy of a matching record and keeps each other record as many times as before |
| Loading.StartEndKeepOthers | src/lib/stores/loading.ts:22-28 | `start` and `end` of one operation leave the records of other operations, and their order, unchanged |
| Loading.EndPreservesOrder | src/lib/stores/loading.ts:26-28 | `end` distributes over concatenation, so survivors keep their relative order |
| Loading.EndIdempotent | src/lib/stores/loading.ts:25-29 | ending twice is ending once |
| Loading.StartThenEnd | src/lib/stores/loading.ts:22-29 | `start` then `end` with the same operation and id leaves no matching record; the net effect is that of the `end` alone |
| Tabs.GenerateTabId | src/lib/stores/tabs.ts:14-16 | definition; no contract; `tab-<key>-<now>`, described by `TabIdsDistinctInTime` |
| Tabs.WithoutTab | src/lib/stores/tabs.ts:46 | definition; no contract; the `filter` of `closeTab`, described by the lemmas below |
| Tabs.KeptByStorage | src/lib/stores/tabs.ts:111-113 | definition; no contract; the `filter` of `closeTabsByStorageType`, described by the lemmas below |
| Tabs.UpdateWhere | src/lib/stores/tabs.ts:83-107 | definition; no contract; the `map` shared by the three per-tab updates, described by `UpdateKeepsIds` |
| Tabs.TabIdsDistinctInTime | src/lib/stores/tabs.ts:14-16 | two ids built from the same key are equal exactly when the clock readings are |
| Tabs.FindTabByPath | src/lib/stores/tabs.ts:20-22 | finds the first tab bound to a file with that path (path only, any storage), or reports that none is |
| Tabs.FindTabIndex | src/lib/stores/tabs.ts:43 | finds the first tab with that id, or reports that none has it |
| Tabs.ActiveTabOf | src/lib/stores/tabs.ts:7-12 | the derived active tab exists exactly when the active id names a listed tab, and it is a listed tab with that id |
| Tabs.OpenedTabIsFound | src/lib/stores/tabs.ts:18-37 | after a path's tab is appended, opening the path again finds that tab |
| Tabs.AppendFreshId | src/lib/stores/tabs.ts:29-37 | an appended tab is listed, and appending a fresh id keeps ids distinct |
| Tabs.CloseRemovesOnlyThatId | src/lib/stores/tabs.ts:46 | a tab survives `closeTab` exactly when it was listed with another id |
| Tabs.CloseActivatesNeighbour | src/lib/stores/tabs.ts:43-55 | with distinct ids, closing index i removes exactly that index, and index `min(i, len - 1)` of the rest holds the right neighbour, or the left one when the closed tab was last |
| Tabs.WithoutTabKeepsIdsDistinct | src/lib/stores/tabs.ts:46 | survivors of `closeTab` keep distinct ids |
| Tabs.KeptByStorageMembers | src/lib/stores/tabs.ts:111-113 | a tab is kept by `closeTabsByStorageType` exactly when it is unsaved or bound to another storage |
| Tabs.KeptByStorageKeepsIdsDistinct | src/lib/stores/tabs.ts:111-113 | the tabs kept by `closeTabsByStorageType` keep distinct ids |
| Tabs.KeptAllMeansNoneMatched | src/lib/stores/tabs.ts:115-117 | keeping as many tabs as there were means keeping the list as it was, with no tab of that storage |
| Tabs.UpdateKeepsIds | src/lib/stores/tabs.ts:83-107 | the per-tab updates keep the length and every id in place, so a valid active id stays valid and distinct ids stay distinct |
| Tabs.TabSession.ActiveTab | src/lib/stores/tabs.ts:7-12 | under the session invariant, the active tab exists exactly when an active id is set, and it is the listed tab with that id |
| Tabs.TabSession.constructor | src/lib/stores/tabs.ts:5-6 | no tabs and no active tab |
| Tabs.TabSession.OpenTab | src/lib/stores/tabs.ts:18-39 | a path already open: the list is unchanged and its first tab becomes active; otherwise one tab with the file, the content and `isDirty = false` is appended and made active; the active id stays valid; fresh ids stay distinct |
| Tabs.TabSession.CloseTab | src/lib/stores/tabs.ts:41-62 | an unknown id changes nothing; otherwise the tabs with that id are removed, and when the active one was closed the tab at `min(index, len - 1)` becomes active, or none when no tab is left; distinct ids stay distinct |
| Tabs.TabSession.CreateNewTab | src/lib/stores/tabs.ts:64-81 | appends and activates an unsaved tab with no file, empty content, `isDirty = false`, `isUnsaved = true` and the default file name, and returns its id |
| Tabs.TabSession.UpdateTabContent | src/lib/stores/tabs.ts:83-89 | only tabs with that id change, getting the content and `isDirty = true`; the length and the active id are unchanged; distinct ids stay distinct |
| Tabs.TabSession.UpdateTabFile | src/lib/stores/tabs.ts:91-99 | only tabs with that id change, getting the file, `isDirty = false` and `isUnsaved = false`; distinct ids stay distinct |
| Tabs.TabSession.MarkTabSaved | src/lib/stores/tabs.ts:101-107 | only tabs with that id change, and only `isDirty` is cleared; distinct ids stay distinct |
| Tabs.TabSession.CloseTabsByStorageType | src/lib/stores/tabs.ts:109-138 | when nothing matches, nothing changes; otherwise exactly the unsaved tabs and tabs of other storages remain, in order, and a removed active tab hands over to the first kept tab, or to none; distinct ids stay distinct |
| Tabs.TabSession.CloseAllTabs | src/lib/stores/tabs.ts:140-143 | no tabs and no active tab |
| NodeOrder.CompareNodes | src/lib/services/file-system.ts:44-50 | definition; no contract; the comparator, whose order the sorting lemmas state |
| NodeOrder.JoinChild | src/lib/services/file-system.ts:12 | definition; no contract; `parentPath ? parentPath/name : name` |
| NodeOrder.Split | src/lib/services/file-system.ts:87 | `split('/')` always gives at least one piece |
| NodeOrder.Segments | src/lib/services/file-system.ts:87 | definition; no contract; `split('/')` with empty pieces dropped, described by the two lemmas below |
| NodeOrder.SortNodes | src/lib/services/file-system.ts:44-50 | the sort is a permutation of its input |
| NodeOrder.SortKeepsMembers | src/lib/services/file-system.ts:44-50 | the sort keeps the length and exactly the members |
| NodeOrder.SortSorted | src/lib/services/file-system.ts:44-50 | for a total-preorder name comparison, the sort's result is ordered by the node comparator |
| NodeOrder.SortedIsLevelOrdered | src/lib/services/file-system.ts:44-50 | a level ordered by the comparator has directories before files, and each kind has non-decreasing names |
| NodeOrder.SortKeepsSorted | src/lib/services/file-system.ts:22-28 | sorting an ordered level changes nothing |
| NodeOrder.SegmentsArePlain | src/lib/services/file-system.ts:87 | every segment of `split('/').filter(p => p.length > 0)` is non-empty and has no `/` |
| NodeOrder.SegmentsOfJoinPath | src/lib/services/file-system.ts:12 | splitting a path joined from plain names gives back those names |
| LocalFs.GetDirectoryHandle | src/lib/services/file-system.ts:94 | definition; no contract; the browser's `getDirectoryHandle` over the in-memory directory, described by `GetDirectoryHandleEffect` |
| LocalFs.GetFileHandle | src/lib/services/file-system.ts:98 | definition; no contract; the browser's `getFileHandle`, described by `GetFileHandleEffect` |
| LocalFs.GetDirectoryHandleEffect | src/lib/services/file-system.ts:94 | `getDirectoryHandle(name, {create})` succeeds exactly for a valid name that is a directory, or that is missing when `create` is set; the directory changes only by creating that one path |
| LocalFs.GetFileHandleEffect | src/lib/services/file-system.ts:98 | `getFileHandle(name, {create})` succeeds exactly for a valid name that is a file, or that is missing when `create` is set; an existing file keeps its content, and a new one is empty |
| LocalFs.DirectoryStep | src/lib/services/file-system.ts:93-95 | one pass of the parent loop succeeds exactly when the name is valid and the path so far is not a file; it reaches that directory and creates nothing outside the path |
| LocalFs.FileStep | src/lib/services/file-system.ts:97-98 | the final `getFileHandle` succeeds exactly when the file can be created, and returns the handle of the full path |
| LocalFs.CreateFileIn | src/lib/services/file-system.ts:87-99 | no segments fail with 'Invalid file name' and change nothing; success holds exactly when every parent name can be walked or made and the last name is not a directory; on success every parent is a directory and the last name is a file, kept or new and empty, whose handle is returned; nothing outside the path changes |
| LocalFs.CreateDirectoryIn | src/lib/services/file-system.ts:113-123 | no segments fail with 'Invalid directory name'; success holds exactly when every name can be walked or made; on success every prefix is a directory and the deepest handle is returned; nothing outside the path changes |
| LocalFs.GetHandleByPath | src/lib/services/file-system.ts:143-176 | gives a handle exactly when every segment is a valid name and the path names something (the root for no segments); the handle is for that path, and it is a file handle exactly when the path is a file; failure is `null`, never an error |
| LocalFs.CreateThenResolve | src/lib/services/file-system.ts:80-176 | a file made by `createFile` is found again by `getHandleByPath` under the same name, as a file handle |
| LocalFs.FileTree | src/lib/services/file-system.ts:4-51 | definition; no contract; the tree `buildFileTree` returns, described by the lemmas below |
| LocalFs.EntryNode | src/lib/services/file-system.ts:14-37 | definition; no contract; the node pushed for one entry |
| LocalFs.BuildFileTree | src/lib/services/file-system.ts:4-51 | the loop's result is the tree function: one node per enumerated entry, recursion into directories, and a final sort |
| LocalFs.FileTreeOrdered | src/lib/services/file-system.ts:44-50 | every level of the tree, the top and each `children`, has directories first and names in order |
| LocalFs.EntryNodeOrdered | src/lib/services/file-system.ts:14-29 | a directory node's `children` are ordered at every level |
| LocalFs.ResortIsNoOp | src/lib/services/file-system.ts:22-28 | sorting a built tree again changes nothing, so the sort of `children` is redundant |
| LocalFs.FileTreeCoversEntries | src/lib/services/file-system.ts:11-39 | the top level is a permutation of the entry nodes, one per enumerated entry (all entries when enumeration does not throw), each with its entry's name and kind |
| LocalFs.EntryNodeKeepsEntry | src/lib/services/file-system.ts:14-37 | an entry's node has the entry's name, and it is a directory exactly for a directory entry |
| LocalFs.FailedEnumerationKeepsPrefix | src/lib/services/file-system.ts:40-42 | when enumeration throws after k entries, the result is the sorted tree of those first k entries |
| LocalFs.FileTreeShaped | src/lib/services/file-system.ts:12-38 | every node of the tree is local, its path joins the names leading to it, its handle points at that path, and exactly directories carry children, which are shaped in turn |
| LocalFs.EntryNodeShaped | src/lib/services/file-system.ts:12-38 | the node pushed for an entry is shaped as above |
| LocalFs.ReadFile | src/lib/services/file-system.ts:53-64 | gives what the browser's read gave; the tracker ends as the `end('file-load', name)` of its old state, with no matching record left |
| LocalFs.WriteFile | src/lib/services/file-system.ts:66-78 | gives what the browser's write gave; the tracker ends as the `end('file-save', name)` of its old state, with no matching record left |
| LocalFs.CreateFile | src/lib/services/file-system.ts:80-106 | no segments fail with 'Invalid file name'; success holds exactly when every parent can be walked or made and the last name is not a directory; on success every parent is a directory and the last name is a file, kept or new and empty; nothing outside the path changes; the tracker ends as an id-less `end('file-create')`, with no 'file-create' record left at all |
| Json.Escape | src/lib/services/google-drive.ts:196 | definition; no contract; the escaping of section 25.5.2 of ECMA-262 |
| Json.Quote | src/lib/services/google-drive.ts:196 | definition; no contract; `JSON.stringify` of a string, described by the lemmas below |
| Json.QuoteRoundTrip | src/lib/services/google-drive.ts:196 | reading a `JSON.stringify`-quoted string gives back the string |
| Json.EscapePlain | src/lib/services/google-drive.ts:196 | a string without quotes, backslashes or control characters is its own escape |
| Json.EscapeHasNoControl | src/lib/services/google-drive.ts:255 | a quoted string holds no control character, so no line break |
| Drive.DriveTree | src/lib/services/google-drive.ts:83-140 | definition; no contract; the tree `buildDriveFileTree` returns, described by the lemmas below |
| Drive.DriveNode | src/lib/services/google-drive.ts:94-124 | definition; no contract; the node pushed for one listed item |
| Drive.BuildDriveFileTree | src/lib/services/google-drive.ts:83-140 | the loop's result is the tree function; afterwards no 'file-tree-load' record for the folder remains, no record was added or duplicated, and other operations' records are unchanged |
| Drive.BracketTracked | src/lib/services/google-drive.ts:89-131 | `start` then `end` of the folder's record, with nested tracked calls between, leaves that effect on the tracker |
| Drive.DriveTreeOrdered | src/lib/services/google-drive.ts:133-139 | every level of a Drive tree has folders first and names in order |
| Drive.DriveNodeOrdered | src/lib/services/google-drive.ts:108-114 | a folder node's `children` are ordered at every level |
| Drive.DriveResortIsNoOp | src/lib/services/google-drive.ts:108-114 | sorting a built Drive tree again changes nothing |
| Drive.DriveTreeCoversListing | src/lib/services/google-drive.ts:89-127 | a failed listing gives an empty tree; otherwise the top level has one node per listed item and no other node, each carrying its item's node |
| Drive.ItemNode | src/lib/services/google-drive.ts:94-124 | a listed item's node has the item's name, `driveId` and MIME type, is a directory exactly when the MIME type is the folder type, and a folder's children are the tree of its id under the joined path |
| Drive.DriveTreeShaped | src/lib/services/google-drive.ts:94-124 | every node is a Drive node with an id, a MIME type and no handle; its path joins the parent's; it is a directory exactly when its type is the folder type; only directories carry children, which are shaped in turn |
| Drive.DriveNodeShaped | src/lib/services/google-drive.ts:94-124 | the node pushed for one item is shaped as above |
| Drive.MultipartBody | src/lib/services/google-drive.ts:193-202 | definition; no contract; the upload body, described by `MultipartRoundTrip` |
| Drive.ParseMultipart | src/lib/services/google-drive.ts:193-202 | definition; no contract; the reference reader of the upload body, used by the round trips |
| Drive.WriteMetadata | src/lib/services/google-drive.ts:189-196 | definition; no contract; `JSON.stringify({mimeType})` |
| Drive.CreateMetadata | src/lib/services/google-drive.ts:246-255 | definition; no contract; `JSON.stringify({name, mimeType, parents: [parentId]})` |
| Drive.QuotedTextMime | src/lib/services/google-drive.ts:190 | the quoted MIME type used in both metadata objects is `JSON.stringify` of the text type, and reads back as it |
| Drive.MultipartRoundTrip | src/lib/services/google-drive.ts:193-202 | metadata without a carriage return, and any content, are read back from the body they are composed into |
| Drive.WriteMetadataHasNoCr | src/lib/services/google-drive.ts:189-196 | the update metadata has no carriage return |
| Drive.CreateMetadataHasNoCr | src/lib/services/google-drive.ts:246-255 | the creation metadata has no carriage return, whatever the name and parent id |
| Drive.CreateMetadataRoundTrip | src/lib/services/google-drive.ts:246-250 | the name and the parent id are read back from the creation metadata |
| Drive.ReadRequest | src/lib/services/google-drive.ts:154-158 | definition; no contract; the GET of `?alt=media` with the bearer token |
| Drive.WriteRequest | src/lib/services/google-drive.ts:204-214 | definition; no contract; the multipart PATCH, described by `WriteRequestRoundTrip` |
| Drive.CreateRequest | src/lib/services/google-drive.ts:263-273 | definition; no contract; the multipart POST, described by `CreateRequestRoundTrip` |
| Drive.ReadDriveFile | src/lib/services/google-drive.ts:145-171 | with no token, 'Not authenticated' and no request; otherwise a GET of `?alt=media` with the bearer token; the result is the body exactly when a token is set and the response is ok; a rejection is rethrown with its own message, and a response that is not ok fails with 'Failed to read file: ' and its status text; either way no 'file-load' record for the id is left |
| Drive.WriteDriveFile | src/lib/services/google-drive.ts:176-225 | with no token, 'Not authenticated' and no request; otherwise a multipart PATCH of the file; it succeeds exactly when a token is set and the response is ok; a rejection is rethrown with its own message, and a response that is not ok fails with 'Failed to write file: ' and its status text; either way no 'file-save' record for the id is left |
| Drive.CreateDriveFile | src/lib/services/google-drive.ts:230-286 | with no token, 'Not authenticated' and no request; otherwise a multipart POST; the result is the created file's body exactly when a token is set and the response is ok; a rejection is rethrown with its own message, and a response that is not ok fails with 'Failed to create file: ' and its status text; either way no 'file-create' record is left at all |
| Drive.WriteRequestRoundTrip | src/lib/services/google-drive.ts:184-214 | the update announces the body's boundary, and the body parses back to the text metadata and exactly the content |
| Drive.CreateRequestRoundTrip | src/lib/services/google-drive.ts:242-273 | the creation body parses back to its metadata and exactly the content, and the metadata gives back the name and the parent id |

## Left out

- `src/lib/services/google-auth.ts` is not part of this model. It holds the OAuth token flow (localStorage, timed refresh, gapi start-up). Its token appears only as the `token` parameter.
- `getRootFolder`, `findOrCreateFsNotesFolder`, `listFiles`, `searchDriveFiles`, `getDriveFile`, `createDriveFolder` and `deleteDriveFile` are gapi and network calls. Only `listFiles` appears, and only through its answers: the listing map, where a missing or `None` entry is a failed call.
- `deleteEntry` is left out, because it only passes its arguments to the browser's `removeEntry`.
- `isFileSystemAccessSupported` is left out, because it only looks at `window`.
- The browser's part of `readFile` and `writeFile` (`getFile`, `text`, `createWritable`, `write`, `close`) is replaced by its result, a parameter.
- The body readers `response.text()` and `response.json()` are replaced by the payload of the settled reply. A rejection of those readers is not modelled separately; it would be one more rejection.
- `Number.prototype.toString` is modelled for integers only. Date components are integers, and exponent notation never arises for them.
- `localeCompare` is a parameter. The ordering lemmas only assume that `cmp(a, b) <= 0` is total and transitive, as any locale's collation is.
- NodeOrder.SortNodes: the sort is a stable insertion sort. Its contract states the permutation and the order, but not stability. The source's engine sort is stable too, but no result here depends on stability.
- Drive.BuildDriveFileTree: the tracker effect is stated as a relation, not as the exact final list:
  - no record of the folder is left;
  - no record is added or duplicated;
  - records of other operations are unchanged.
  The exact list depends on how the nested calls' `end` calls interleave with records of the same folder id.
- Drive.BuildDriveFileTree: the recursion carries a ghost height bound on how deeply folders nest. On a folder graph with a cycle the source recurses forever, and that case is not modelled.
- `buildDriveFileTree` starts and ends a 'file-tree-load' record in every recursive call, not once per build. The model follows the code.
- LocalFs.ValidName: the handle API's name check is reduced to the rules the walkers meet: not empty, not "." or "..", and no "/". Other name restrictions of particular platforms are not modelled.
- LocalFs.GetHandleByPath: the source's `currentHandle.kind !== 'directory'` check has no counterpart. It cannot fire, because only the last segment can make the current handle a file handle, and the loop ends right after it.
- Drive.MultipartBody: the content may itself contain the boundary's delimiter, which the source does not check. Section 5.1.1 of RFC 2046 requires a boundary absent from the parts. The reader finds the metadata at the first delimiter and takes the content up to the final close delimiter, so the round trip holds for any content, but a server that splits at the first delimiter would not agree.
- Svelte store mechanics (`subscribe`, notification) and the interleaving of concurrent asynchronous calls are not modelled. Each operation runs as one atomic step on the store.
- The cursor position of a tab is carried in the record, but no operation of the core touches it.
- The `console.error` logging in the catch blocks is left out, because it only writes to the console. It appears in `buildFileTree` (src/lib/services/file-system.ts:40-42), in the other local operations, in `buildDriveFileTree` (src/lib/services/google-drive.ts:127-128) and in the Drive file operations. The error a catch block rethrows is modelled.
- Json.Quote: characters are Unicode scalar values, so the lone surrogates that section 25.5.2 of ECMA-262 also escapes never occur.
