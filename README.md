# grutto-study-share: a verified model of the file-sharing front end

grutto-study-share is a small study-material sharing site. It is a React
front end over Supabase: a Postgres database with the tables `files`,
`folders`, `file_shares`, `notifications` and `profiles`, plus the storage
bucket `user-files`. This project models what the front end's pages and
components do to that backend and to their own state, and proves properties
of it.

- **The backend.** Module `Store`, class `Store.Backend`, holds the five
  tables as sequences of rows, the bucket as a set of object keys, and a
  counter for row ids.
  - Every query the front end issues is a method on the backend.
  - Each method takes the reply the backend gives as a parameter (`Reply`
    is `Ok` or `Err(message)`). It changes its table only when that reply
    is `Ok`.
  - Module `Rows` defines the row types and the pure row updates that
    `update … eq('id', …)` performs.
- **Components and pages.** Each one is a module. A component whose state
  its handlers update in place is a class with those state variables as
  fields, and each handler is a method with a frame.
  - `FileList`, `FileUpload`, `NotificationsPanel`, `ShareDialog`,
    `FilePreviewDialog`, `FolderCard`, `FolderDialog` and
    `FolderRenameDialog` model the components.
  - `FilesPage` and `FilePreview` model the two pages.
- **What is specified.** What each page lists is specified by functions,
  such as a filtered and sorted view of a table. Lemmas then state what
  those views mean: ordering, permutation, membership, bounds.
- **The upload loop.** The per-file loop is a method whose loop invariant
  ties the state to a step function. Lemmas prove three invariants of that
  step function:
  - progress stays within 0–100;
  - every stored row has its blob;
  - entries of other files are left alone.
- **Folder moves.** Moving a folder by drag and drop is proved to be able
  to create a cycle in the folder tree. A checked variant is proved to keep
  the tree acyclic.

Clock readings (`Date.now()`, database timestamps) are `int` or `nat`
parameters. The timer that animates upload progress is reduced to the
number of ticks that fire before storage answers.

## Model

| member | source | states |
|---|---|---|
| Rows.FileRowOf | src/integrations/supabase/types.ts:49-95 | a file inserted without a folder, thumbnail or last-access time gets those columns null |
| Rows.FolderRowOf | src/integrations/supabase/types.ts:96-140 | a folder inserted without a parent is a root folder (`parent_folder_id` null) |
| Rows.ShareRowsOf | src/integrations/supabase/types.ts:17-48 | a batch insert of shares yields one row per requested share, in order, with its file, sharer and recipient, a fresh consecutive id and the insert time |
| Rows.NotificationRowsOf | src/integrations/supabase/types.ts:141-181 | a batch insert of notifications yields one row per requested notification, in order, with its recipient, sender, type, file and message, unread, a fresh consecutive id and the insert time |
| Rows.MoveFileRows | src/components/FolderCard.tsx:80-83 | updating `folder_id` where `id` matches changes that column of exactly the matching rows and nothing else |
| Rows.RenameFileRows | src/pages/FilePreview.tsx:76-79 | updating `filename` where `id` matches changes exactly that column of the matching rows |
| Rows.MoveFolderRows | src/components/FolderCard.tsx:88-91 | updating `parent_folder_id` where `id` matches changes exactly that column of the matching rows |
| Rows.RenameFolderRows | src/components/FolderRenameDialog.tsx:41-44 | updating `name` where `id` matches changes exactly that column of the matching rows |
| Rows.MarkReadRows | src/components/NotificationsPanel.tsx:118-121 | updating `read_status` to true where `id` is in a set changes exactly that column of the rows in the set |
| Store.UploadOutcome | src/components/FileUpload.tsx:77-79 | a storage upload succeeds exactly when the service accepts it and the key is not already taken; a service error is passed on unchanged |
| Store.Backend.constructor | src/integrations/supabase/types.ts:17-210 | a fresh backend has empty tables, only the given profiles and an empty bucket |
| Store.Backend.UploadBlob | src/components/FileUpload.tsx:77-79 | the key is added to the bucket exactly when the upload succeeds |
| Store.Backend.RemoveBlob | src/components/FileList.tsx:194-196 | the key leaves the bucket exactly when removal succeeds |
| Store.Backend.InsertFile | src/components/FileUpload.tsx:93-101 | on success one row with a fresh id is appended and the counter advances; on failure nothing changes |
| Store.Backend.DeleteFile | src/components/FileList.tsx:200-204 | on success the file's row and, by the foreign-key cascade, its shares disappear; notifications naming the file are kept; on failure nothing changes |
| Store.Backend.MoveFile | src/components/FolderCard.tsx:80-83 | on success the table becomes `MoveFileRows` of the old table |
| Store.Backend.RenameFile | src/pages/FilePreview.tsx:76-79 | on success the table becomes `RenameFileRows` of the old table |
| Store.Backend.InsertFolder | src/components/FolderDialog.tsx:47-53 | on success one root-folder row with a fresh id is appended |
| Store.Backend.MoveFolder | src/components/FolderCard.tsx:88-91 | on success the table becomes `MoveFolderRows` of the old table |
| Store.Backend.RenameFolder | src/components/FolderRenameDialog.tsx:41-44 | on success the table becomes `RenameFolderRows` of the old table |
| Store.Backend.DeleteFolder | src/components/FolderCard.tsx:56-59 | on success exactly the rows with that id disappear |
| Store.Backend.InsertShares | src/components/ShareDialog.tsx:117-119 | on success the batch is appended with consecutive fresh ids |
| Store.Backend.InsertNotifications | src/components/ShareDialog.tsx:132-134 | on success the batch is appended with consecutive fresh ids |
| Store.Backend.MarkRead | src/components/NotificationsPanel.tsx:95-98 | on success the table becomes `MarkReadRows` of the old table |
| Store.Backend.DeleteNotification | src/components/NotificationsPanel.tsx:137-140 | on success exactly the rows with that id disappear |
| FileList.FileTypeLabel | src/components/FileList.tsx:45-51 | the badge is one of five labels, and each of "Word", "Excel", "PowerPoint", "PDF" and the "Document" fallback holds exactly when its keywords are present and those of the earlier labels absent |
| FileList.NewerFirstIsTotalPreorder | src/components/FileList.tsx:73 | ordering by descending upload date is total and transitive, so sorting by it is well defined |
| FileList.UploadedViewIsOwnFilesNewestFirst | src/components/FileList.tsx:67-73 | the uploaded view is sorted newest first, holds exactly the user's own files, and is a permutation of them |
| FileList.FirstWithKey | src/components/FileList.tsx:76-103 | an embedded record (the shared file, its owner's profile) is a stored entry with that key, and is absent only when no entry has it |
| FileList.SharedView | src/components/FileList.tsx:74-106 | every shared entry is a stored file shared with the user, carries its owner's profile, and there are no more entries than shares |
| FileList.SharedViewFollowsShares | src/components/FileList.tsx:76-103 | the shared view has exactly one entry per share granted to the user whose file exists, in share order, each showing that share's file |
| FileList.SharedViewComplete | src/components/FileList.tsx:76-103 | every share granted to the user whose file exists shows up in the shared view |
| FileList.RecentSources | src/components/FileList.tsx:107-140 | the recent view starts from at most ten own files and ten shared files |
| FileList.RecentViewSortedAndBounded | src/components/FileList.tsx:142-148 | the recent view is sorted newest first and holds at most 20 entries |
| FileList.RecentViewDropsNothing | src/components/FileList.tsx:142-148 | sorting and the cut at 20 lose nothing from the two queries' at most twenty rows |
| FileList.SearchKeepsMatchesInOrder | src/components/FileList.tsx:216-218 | search keeps exactly the entries whose lower-cased name contains the lower-cased query, in their order |
| FileList.SearchEmptyKeepsAll | src/components/FileList.tsx:216-218 | an empty search shows every entry |
| FileList.Actions | src/components/FileList.tsx:285-303 | every entry can be downloaded; share and delete are offered exactly on the user's own files |
| FileList.RemoveFileKeepsCover | src/components/FileList.tsx:189-207 | removing a file's blob and row together keeps every remaining row's blob present |
| FileList.DeleteStoredFileKeepsCover | src/components/FileList.tsx:194-204 | deleting a stored file's blob and its row keeps the store consistent |
| FileList.FileListComponent.constructor | src/components/FileList.tsx:53-60 | the list starts empty for the given user and view |
| FileList.FileListComponent.LoadFiles | src/components/FileList.tsx:62-164 | a successful load shows exactly the selected view (any view other than uploaded or shared is the recent one); a failed query keeps the old list |
| FileList.FileListComponent.HandleDelete | src/components/FileList.tsx:189-214 | after confirmation the blob goes first, then the row and its shares, then the list reloads; each step runs only when the previous one succeeded; blob/row consistency is kept when both deletes succeed |
| FileUpload.SupportedFilesSelection | src/components/FileUpload.tsx:31-49 | of the files the dropzone hands to `onDrop` (`acceptedFiles`), the handler keeps those of a listed MIME type up to 50 MB, in order; its rejection notice is due exactly when one of those handed-over files is not kept |
| FileUpload.AcceptedTypeHasSpecificLabel | src/components/FileUpload.tsx:35-43 | every accepted MIME type gets a specific file-list badge, never "Document" |
| FileUpload.PdfLabel | src/components/FileUpload.tsx:36 | the PDF type is badged "PDF" |
| FileUpload.WordTypesLabel | src/components/FileUpload.tsx:37-38 | both Word types are badged "Word" |
| FileUpload.PresentationTypesLabel | src/components/FileUpload.tsx:39-40 | both PowerPoint types get a specific badge |
| FileUpload.SpreadsheetTypesLabel | src/components/FileUpload.tsx:41-42 | both Excel types get a specific badge, and the legacy one is badged "Excel" |
| FileUpload.ExcelLabel | src/components/FileUpload.tsx:41 | the legacy Excel type is badged "Excel" |
| FileUpload.Track | src/components/FileUpload.tsx:52-56 | tracking appends one entry per accepted file at 0 % with no error, keeping the earlier entries as they were |
| FileUpload.Tick | src/components/FileUpload.tsx:66-74 | a timer tick adds 10 % to the entries of that file that are below 90 % and changes nothing else |
| FileUpload.Ticks | src/components/FileUpload.tsx:66-74 | any number of ticks leaves other files' entries, and every error, unchanged |
| FileUpload.Finish | src/components/FileUpload.tsx:84-88 | after storage answers, that file's entries show 100 % and nothing else changes |
| FileUpload.Fail | src/components/FileUpload.tsx:107-112 | a failure records its message on that file's entries only |
| FileUpload.UntrackRemovesExactly | src/components/FileUpload.tsx:106 | untracking keeps exactly the entries of other files, in order and each as often as before, and drops every entry of the file |
| FileUpload.StorageKey | src/components/FileUpload.tsx:62 | the object key is the user's folder, `/`, the decimal timestamp, `_` and the file name |
| FileUpload.StorageKeysDiffer | src/components/FileUpload.tsx:62 | one user's uploads of one name get different keys exactly when their timestamps differ |
| FileUpload.StepsExtend | src/components/FileUpload.tsx:59-115 | uploading a prefix and then the next file is the same as uploading the longer prefix |
| FileUpload.StepsKeepShape | src/components/FileUpload.tsx:66-88 | every entry's progress stays in 0–100 through any sequence of uploads |
| FileUpload.StepsKeepCover | src/components/FileUpload.tsx:77-103 | every row the uploads insert has its blob in the bucket |
| FileUpload.StepOutcome | src/components/FileUpload.tsx:59-113 | one file's upload: when storage and insert both succeed, exactly one row built from the file is appended under the next id and its lines leave the list; otherwise no row is added and only its lines change, to 100 with the error of the call that failed |
| FileUpload.StepsRowCount | src/components/FileUpload.tsx:59-115 | the loop adds exactly one row per file whose upload and insert both succeeded, with consecutive ids |
| FileUpload.StepsInsertOnlyUploads | src/components/FileUpload.tsx:93-103 | the uploads only append rows, at most one per file, each built from one of the dropped files |
| FileUpload.StepsLeaveOthersOf | src/components/FileUpload.tsx:67-110 | entries of files outside the batch are left exactly as they were |
| FileUpload.BrowserFile.constructor | src/components/FileUpload.tsx:33-34 | a browser file carries its name, MIME type and size |
| FileUpload.Uploader.constructor | src/components/FileUpload.tsx:29 | the upload list starts empty |
| FileUpload.Uploader.UploadOne | src/components/FileUpload.tsx:60-114 | one loop iteration moves the list and the backend by exactly one step of the step function |
| FileUpload.Uploader.OnDrop | src/components/FileUpload.tsx:31-121 | given the dropzone's `acceptedFiles`, the notice is due exactly when one of them is not kept and the completion callback exactly when one is kept; the final list and backend are those of the step function run over the kept files |
| FileUpload.Uploader.RemoveUploadingFile | src/components/FileUpload.tsx:137-139 | the remove button keeps exactly the entries of other files |
| FileUpload.DropPreservesInvariants | src/components/FileUpload.tsx:31-121 | a whole drop keeps progress in range and blob coverage, and leaves other files' entries alone |
| NotificationsPanel.NewestFirstIsTotalPreorder | src/components/NotificationsPanel.tsx:56 | ordering by descending creation time is total and transitive |
| NotificationsPanel.ReceivedIsOwnNewestFirst | src/components/NotificationsPanel.tsx:52-56 | the panel's query yields exactly the user's notifications, newest first, as a permutation of them |
| NotificationsPanel.SenderIds | src/components/NotificationsPanel.tsx:61 | the sender ids are exactly the senders of the rows, without duplicates |
| NotificationsPanel.FileIds | src/components/NotificationsPanel.tsx:68 | the file ids are exactly the non-empty file ids of the rows, without duplicates |
| NotificationsPanel.LastWithKey | src/components/NotificationsPanel.tsx:75-76 | the map lookup finds an entry with that key, and finds nothing only when no entry has it |
| NotificationsPanel.Enrich | src/components/NotificationsPanel.tsx:78-82 | enrichment keeps every row, in order, one entry per row |
| NotificationsPanel.LoadedJoinsCorrectly | src/components/NotificationsPanel.tsx:52-84 | every shown sender is the row's sender profile and every shown file is the row's file; both are found whenever the lookup succeeded and the record exists |
| NotificationsPanel.MarkShown | src/components/NotificationsPanel.tsx:102-104 | marking one notification read changes exactly the entries with that id |
| NotificationsPanel.AllShownRead | src/components/NotificationsPanel.tsx:125-127 | marking all read sets every entry's status and changes nothing else |
| NotificationsPanel.UnreadIds | src/components/NotificationsPanel.tsx:112-114 | the ids sent are exactly those of the unread entries (status false or null) |
| NotificationsPanel.MarkShownCount | src/components/NotificationsPanel.tsx:102-104 | the unread count drops by exactly the number of unread entries with that id |
| NotificationsPanel.AllShownReadHasNoUnread | src/components/NotificationsPanel.tsx:125-127 | after marking all read the unread count is 0 |
| NotificationsPanel.RemoveLowersCount | src/components/NotificationsPanel.tsx:144 | deleting a notification never raises the unread count |
| NotificationsPanel.Panel.constructor | src/components/NotificationsPanel.tsx:40 | the panel starts with no notifications |
| NotificationsPanel.Panel.LoadNotifications | src/components/NotificationsPanel.tsx:49-91 | a successful main query shows the joined rows; a failed one keeps the old list |
| NotificationsPanel.Panel.MarkAsRead | src/components/NotificationsPanel.tsx:93-108 | on success the stored row and the shown entry are both marked read; on failure neither changes |
| NotificationsPanel.Panel.MarkAllAsRead | src/components/NotificationsPanel.tsx:110-133 | a request is sent exactly when something is unread; on success the stored unread rows and every shown entry are marked read |
| NotificationsPanel.Panel.DeleteNotification | src/components/NotificationsPanel.tsx:135-149 | on success the notification disappears from the table and from the list |
| ShareDialog.SearchResultsSpec | src/components/ShareDialog.tsx:66-90 | results are at most ten profiles, in store order, whose username starts with the query (ignoring case), other than the searcher, neither shared with nor picked; when at most ten match, every fresh match is among them |
| ShareDialog.ShareBatch | src/components/ShareDialog.tsx:111-115 | one share per picked user, each for this file and sent by the current user |
| ShareDialog.NotificationBatch | src/components/ShareDialog.tsx:124-130 | one `file_shared` notification per picked user, sent by the current user, naming the file |
| ShareDialog.BatchesAgree | src/components/ShareDialog.tsx:111-130 | the i-th share and the i-th notification go to the i-th picked user, and the shares reach exactly the picked users |
| ShareDialog.ShareRowsWellFormed | src/components/ShareDialog.tsx:111-119 | with distinct picks that exclude the sharer, no one shares with themself and no user gets two new shares of the file |
| ShareDialog.SharedWith | src/components/ShareDialog.tsx:52-64 | the current shares are exactly the users some share of this file names |
| ShareDialog.RemovePickedKeepsDistinct | src/components/ShareDialog.tsx:98-100 | removing a pick keeps the picks distinct |
| ShareDialog.Dialog.constructor | src/components/ShareDialog.tsx:32-35 | the dialog starts with an empty query, results, picks and share list |
| ShareDialog.Dialog.LoadCurrentShares | src/components/ShareDialog.tsx:52-64 | a successful load replaces the share list; a failure keeps it |
| ShareDialog.ShortQueries | src/components/ShareDialog.tsx:45 | a query is too short to search exactly when it is empty or one character of the Basic Multilingual Plane; a single emoji, two UTF-16 units long, already searches |
| ShareDialog.Dialog.SetQuery | src/components/ShareDialog.tsx:44-50 | a query shorter than two UTF-16 code units (`searchQuery.length`) clears the results; otherwise a successful search shows its results; the picks stay distinct |
| ShareDialog.Dialog.AddUser | src/components/ShareDialog.tsx:92-96 | picking appends the profile and clears the query and results; a pick taken from the results keeps the picks distinct |
| ShareDialog.Dialog.RemoveUser | src/components/ShareDialog.tsx:98-100 | removing keeps exactly the other picks, in order |
| ShareDialog.Dialog.HandleShare | src/components/ShareDialog.tsx:102-146 | with no picks nothing happens; shares are inserted, then notifications only after the shares succeeded; the dialog closes exactly when the shares succeeded, whatever happens to the notifications |
| FilePreviewDialog.Parts | src/components/FilePreviewDialog.tsx:73-75 | each viewer appears exactly when its flag holds, and the download prompt appears alone exactly when no flag holds |
| FilePreviewDialog.PartsInDialogOrder | src/components/FilePreviewDialog.tsx:112-136 | for every type and name, each part appears at most once, in the dialog's order |
| FilePreviewDialog.ViewersAreIndependent | src/components/FilePreviewDialog.tsx:112-136 | a type naming both an image and a PDF, with a `.txt` name, gets all three viewers at once |
| FilePreview.PreviewLabel | src/pages/FilePreview.tsx:92-99 | the page badge is one of six labels: "AFBEELDING" exactly for image types, and each of "WORD", "EXCEL", "POWERPOINT", "PDF" and "BESTAND" exactly when its keywords are present and "image" and the earlier keywords absent |
| FilePreview.PageParts | src/pages/FilePreview.tsx:101-105 | once the page has finished loading and holds the blob's URL (the gate at line 179, outside this function), the inline image, the inline PDF and the download prompt each appear exactly when their flag holds |
| FilePreview.OfficeTypesDownloadOnly | src/pages/FilePreview.tsx:197-210 | once the blob's URL is loaded, an office type that is neither an image nor a PDF gets only the download prompt, naming its file-list application |
| FilePreview.OtherTypesShowNothing | src/pages/FilePreview.tsx:179-210 | a type with none of the keywords leaves the page body empty |
| FilePreview.Page.constructor | src/pages/FilePreview.tsx:10-16 | the page starts without a file, not editing, with an empty name field |
| FilePreview.Page.LoadFile | src/pages/FilePreview.tsx:27-58 | with exactly one row for the id the file and name field are set; a failed query or download sends the user back; a missing id does nothing |
| FilePreview.Page.StartEditing | src/pages/FilePreview.tsx:146 | the edit button enters edit mode |
| FilePreview.Page.CancelEditing | src/pages/FilePreview.tsx:132-135 | cancelling restores the stored name and leaves edit mode |
| FilePreview.Page.HandleRename | src/pages/FilePreview.tsx:72-90 | a blank name or missing file does nothing; the trimmed name is stored, and the page shows it and leaves edit mode only on success |
| FilePreview.Page.HandleDownload | src/pages/FilePreview.tsx:60-70 | a download starts exactly when the file and its blob are loaded |
| FilePreview.RenameKeepsPageAndRowInStep | src/pages/FilePreview.tsx:76-84 | after a rename the stored row equals the page's file with the new name |
| FolderCard.IconOfColour | src/components/FolderCard.tsx:33-48 | each mapped colour gets its own icon; the green icon is shown for its own colour and for every unmapped colour |
| FolderCard.CountLabel | src/components/FolderCard.tsx:191 | the label is the count in decimal followed by " bestand" exactly when the count is 1, else " bestanden" |
| FolderCard.HandleDelete | src/components/FolderCard.tsx:50-69 | after confirmation and on success exactly the folder's rows disappear; otherwise nothing changes |
| FolderCard.HandleDrop | src/components/FolderCard.tsx:71-102 | a dropped file moves into the folder; otherwise a dragged folder other than the target itself moves under it, with no further check |
| FolderCard.DropCanCreateCycle | src/components/FolderCard.tsx:87-95 | with "b" inside root folder "a", dropping "a" onto "b" is allowed and leaves "a" with no path to the root |
| FolderCard.IsAncestorOrSelf | src/components/FolderCard.tsx:87-95 | the walk up from the target finds the dragged folder exactly when the move would close a cycle |
| FolderCard.HandleDropChecked | src/components/FolderCard.tsx:71-102 | the drop with the cycle check does what the drop does for files and safe moves, refuses moves that would close a cycle, and keeps the folder tree acyclic |
| FolderCard.CheckedMoveKeepsAcyclic | src/components/FolderCard.tsx:87-95 | a move that passes the cycle check leaves every folder with a path to the root |
| FilesPage.ByNameIsTotalPreorder | src/pages/Files.tsx:78 | ordering by name is total and transitive |
| FilesPage.RootFoldersSpec | src/pages/Files.tsx:73-78 | the folder grid shows exactly the user's root folders, sorted by name, as a permutation of them |
| FilesPage.CountsOfSpec | src/pages/Files.tsx:85-93 | the count map has a key exactly for each listed folder, holding its file count, or 0 when its query failed |
| FilesPage.ListedFolderShowsItsCount | src/pages/Files.tsx:85-93 | each listed folder's card shows its own file count, or 0 when its query failed |
| FilesPage.BadgeText | src/pages/Files.tsx:239-245 | no badge at 0; "9+" exactly above nine; otherwise the single digit |
| FilesPage.PanelCountIsOwnUnread | src/components/NotificationsPanel.tsx:151 | the panel's unread count is the number of the user's notifications whose status is false or null |
| FilesPage.BadgeCountsOwnFalse | src/pages/Files.tsx:57-69 | the header badge counts only status false, never more than the panel, and the same when no status is null |
| FilesPage.PanelCountAndBadge | src/pages/Files.tsx:57-69 | the badge never exceeds the panel's unread count, and the two agree when no status of the user's notifications is null |
| FilesPage.Page.constructor | src/pages/Files.tsx:22-31 | the page starts with no folders, counts or unread count |
| FilesPage.Page.LoadUnreadCount | src/pages/Files.tsx:57-69 | a successful count shows the badge count; a failure shows 0 |
| FilesPage.Page.LoadFolders | src/pages/Files.tsx:71-97 | a successful query lists the root folders and builds their counts; a failure keeps both |
| FilesPage.Page.HandleRootDrop | src/pages/Files.tsx:127-154 | a dropped file leaves its folder, otherwise a dragged folder becomes a root; then the grid reloads |
| FilesPage.Page.HandleUploadComplete | src/pages/Files.tsx:109-113 | the upload area closes and the file list is told to refresh |
| FilesPage.Page.HandleFolderCreated | src/pages/Files.tsx:120-123 | the file list refreshes and the folder grid reloads |
| FilesPage.RootDropListsFolder | src/pages/Files.tsx:140-151 | a folder dropped on the root area appears in the reloaded grid as a root folder, otherwise unchanged |
| FilesPage.RootDropUncountsFile | src/pages/Files.tsx:132-137 | a file dropped on the root area is counted in no folder |
| FolderDialog.PaletteColoursShowGreenIcon | src/components/FolderDialog.tsx:23-32 | no palette colour has an icon entry, so every newly created folder shows the green icon |
| FolderDialog.PaletteColourShowsGreenIcon | src/components/FolderDialog.tsx:23-32 | whichever palette colour is picked, the folder card draws the green icon |
| FolderDialog.CreatedFolderIsListed | src/components/FolderDialog.tsx:47-53 | the new folder appears in the folder grid with the name and colour chosen |
| FolderDialog.StoredNameIsTrimmed | src/components/FolderDialog.tsx:40-50 | a stored folder name neither starts nor ends with white space |
| FolderDialog.Dialog.constructor | src/components/FolderDialog.tsx:35-36 | the dialog starts with an empty name and the first palette colour, so its colour is a palette colour |
| FolderDialog.Dialog.SetName | src/components/FolderDialog.tsx:88 | typing sets the name field |
| FolderDialog.Dialog.SelectColor | src/components/FolderDialog.tsx:97-100 | clicking one of the offered swatches selects its colour, which stays a palette colour |
| FolderDialog.Dialog.HandleCreate | src/components/FolderDialog.tsx:39-68 | a blank name does nothing; otherwise the trimmed name and colour are inserted as a root folder, and the fields reset only on success; the new folder shows the green icon |
| FolderRenameDialog.Dialog.constructor | src/components/FolderRenameDialog.tsx:30 | the name field starts as the current name |
| FolderRenameDialog.Dialog.SetName | src/components/FolderRenameDialog.tsx:76 | typing sets the name field |
| FolderRenameDialog.Dialog.HandleRename | src/components/FolderRenameDialog.tsx:33-57 | a blank name does nothing; otherwise the trimmed name is stored for exactly that folder |
| FolderRenameDialog.RenameKeepsListing | src/components/FolderRenameDialog.tsx:41-44 | renaming keeps the number of listed folders, and a listed folder is listed again under its new name |

## Left out

- Toasts, `confirm` dialogs, navigation, console output, object URLs, the browser download, and the loading and busy flags. The `confirm` answer is a `confirmed` parameter.
- Auth: the session's user id is a parameter, and `Auth.tsx`, `Index.tsx`, `FolderView.tsx` and `FolderColorDialog.tsx` are not part of this model.
- The React effect scheduling is left out. A handler is modelled as running to completion, with the backend's reply to each query as a parameter.
  - Interleavings of concurrent handlers are not modelled.
  - The upload progress timer is reduced to its number of ticks before storage answers.
- Database collation is not modelled. `order('name')` is modelled as code-point order of the names.
- Rows with equal sort keys are kept in the order an insertion sort gives them, not in whatever order Postgres returns. Likewise, a `limit(10)` without `order` returns ten rows of the backend's choosing. The model takes the first ten in table order: for the user search (src/components/ShareDialog.tsx:71-76, `ShareDialog.SearchResultsSpec`, whose "in store order" holds only for that choice) and for the shared half of the recent view (src/components/FileList.tsx:116-135, `FileList.RecentSources`). The "shared" view's query has no `order` either (src/components/FileList.tsx:76-94), so its rows come in no defined order; the model takes table order there too, and the "in share order" of `FileList.SharedViewFollowsShares` holds only for that choice.
- `ilike` treats `%` and `_` in the user's query as wildcards. The model treats the query literally, as a prefix.
- `toLowerCase` is modelled for ASCII and Latin-1 letters only.
- The icon images themselves are an enumeration.
  - An object-key lookup in the icon map could also hit JavaScript prototype properties; only the seven own keys are modelled.
- Deleting a folder changes only `folders`. What the database's foreign keys do to its files and sub-folders is outside this model.
- File deletion relies on the `file_shares` foreign-key cascade, which the backend model performs.
- Store.Backend.DeleteFile: `notifications.file_id` also refers to the file (`notifications_file_id_fkey`, src/integrations/supabase/types.ts:174), but its on-delete action is not visible from the front end. The model keeps notifications that name a deleted file. A restricting key would make the delete fail once the file has been shared; a nulling or cascading key would clear or remove those notifications.
- Rows.NotificationRowsOf: the share dialog leaves `read_status` out of its insert (src/components/ShareDialog.tsx:124-130), so the stored value is the column default, which the front end does not show. The model takes that default to be `false` (unread). With a null default, the header badge would count none of the new notifications while the panel counts them all (`FilesPage.PanelCountAndBadge`).
- FolderDialog.Dialog.SetName: the name input carries `maxLength={50}` (src/components/FolderDialog.tsx:89), a limit the browser applies while typing. The model accepts a name of any length, so it does not promise that new folder names have at most 50 characters.
- FolderRenameDialog.Dialog.SetName: the same `maxLength={50}` (src/components/FolderRenameDialog.tsx:77) is not modelled, so renamed folder names are not bounded either.
- Each folder-count query is answered per folder id (`countReply`), and the count is computed from the files table.
- The text of the storage service's duplicate-key error is left out; `Store.UploadOutcome` only says that a taken key fails.
- FileUpload.PresentationTypesLabel: states only that both PowerPoint types get a specific badge, not that the badge is "PowerPoint". Ruling out "word" and "excel" inside these long literal MIME strings costs the verifier more than its resource bound allows.
- FileUpload.SpreadsheetTypesLabel: states "Excel" for the legacy type only, and for the Open XML spreadsheet type only that its badge is specific. The reason is the same.
- FolderCard.IsAncestorOrSelf: the walk takes a ghost depth bound under which every chain is known to reach the root. It says nothing about a folder table that already holds a cycle.
- FilePreview.Page.CancelEditing: the edit button is shown before a file has loaded (src/pages/FilePreview.tsx:141-150), so cancelling can run without a file. The handler then throws while reading the file name, before any state changes. The model leaves the state unchanged and does not model the thrown error.
- The uploaded view has no folder filter: it lists the user's files in every folder, which the model keeps.
- `Files.tsx` passes a sort choice and a file-type filter to the file list, which ignores both, so the model has neither. Its "favorites" tab passes a view name the list does not know, and that view takes the recent branch (`FileList.View`).
- Uniqueness constraints of the database tables, if any, are not part of this model.
- FileList.FileListComponent.HandleDelete: the blob is removed before the row. When the row delete fails, the row stays and points at a missing blob. The contract states this, and the consistency clause covers only the other outcomes.
- FileUpload.SupportedFilesSelection: the dropzone itself filters first, by its `accept` map (MIME type or extension) and `maxSize` of 50 MB (src/components/FileUpload.tsx:123-135), and hands only the files it accepts to `onDrop`. Files the dropzone refuses get no notice, since `fileRejections` is never read; that pre-filter is not modelled. The model starts from the handed-over `acceptedFiles`, so its notice covers only a file that passed the dropzone, for example by extension, yet carries a MIME type outside the list, such as `report.pdf` with an empty type.
- FileUpload: a failed row insert leaves its blob in the bucket. This is modelled (coverage still holds, since a spare blob breaks nothing).
- The preview page shows nothing for types other than images, PDFs and office documents, while the preview dialog shows a download prompt (`FilePreview.OtherTypesShowNothing`).
- The header badge counts `read_status = false` while the panel counts false or null, so they can disagree (`FilesPage.PanelCountAndBadge`).

## Findings

| source | as written | input that shows it | evidently intended | confidence | as-written member | corrected member |
|---|---|---|---|---|---|---|
| src/components/FolderCard.tsx:87-95 | a dragged folder is moved under the target whenever it is not the target itself; there is no check that the target lies inside the dragged folder | folder "b" inside root folder "a"; drag "a" onto "b". The files page shows cards for root folders only (src/pages/Files.tsx:77, 263-273), so "b"'s card must be left over from a stale grid: after "b" is dropped into "a", a failed folder reload keeps the old grid (the catch at src/pages/Files.tsx:94-96), or another tab moved "b" into "a" | refuse a move whose target is the dragged folder or one of its descendants, so the folder tree stays a tree | not executed | FolderCard.DropCanCreateCycle | FolderCard.HandleDropChecked |
