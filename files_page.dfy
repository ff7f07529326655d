/** The main files page: the root folder row with a file count per folder,
    the unread badge on the bell, and dropping an item onto the page to move
    it back to the root. */
module FilesPage {
  import opened Wrappers
  import opened Text
  import opened Seqs
  import opened Rows
  import opened Store
  import NotificationsPanel

  /** `order('name')` */
  function ByName(a: FolderRow, b: FolderRow): bool {
    LexLeq(a.name, b.name)
  }

  lemma ByNameIsTotalPreorder()
    ensures TotalPreorder(ByName)
  {
    forall a: FolderRow, b: FolderRow ensures ByName(a, b) || ByName(b, a) {
      LexLeqTotal(a.name, b.name);
    }
    forall a: FolderRow, b: FolderRow, c: FolderRow | ByName(a, b) && ByName(b, c) ensures ByName(a, c) {
      LexLeqTransitive(a.name, b.name, c.name);
    }
  }

  /** A folder of the user at the root. */
  predicate IsOwnRoot(f: FolderRow, userId: Id) {
    f.ownerId == userId && f.parentFolderId == None
  }

  /** The folder query of `loadFolders`. */
  function RootFolders(folders: seq<FolderRow>, userId: Id): seq<FolderRow> {
    SortBy(Filter(folders, (f: FolderRow) => IsOwnRoot(f, userId)), ByName)
  }

  /** The listing holds exactly the user's root folders, each as often as it
      is stored, in name order. */
  lemma RootFoldersSpec(folders: seq<FolderRow>, userId: Id)
    ensures SortedBy(RootFolders(folders, userId), ByName)
    ensures multiset(RootFolders(folders, userId)) == multiset(Filter(folders, (f: FolderRow) => IsOwnRoot(f, userId)))
    ensures forall f :: f in RootFolders(folders, userId) <==> f in folders && IsOwnRoot(f, userId)
  {
    var own := Filter(folders, (f: FolderRow) => IsOwnRoot(f, userId));
    ByNameIsTotalPreorder();
    SortBySorted(own, ByName);
    forall f ensures f in RootFolders(folders, userId) <==> f in folders && IsOwnRoot(f, userId) {
      calc {
        f in RootFolders(folders, userId);
        f in multiset(RootFolders(folders, userId));
        f in multiset(own);
        f in own;
      }
    }
  }

  /** The per-folder count query: the files whose `folder_id` is the folder. */
  function FileCount(files: seq<FileRow>, folderId: Id): nat {
    |Filter(files, (f: FileRow) => f.folderId == Some(folderId))|
  }

  /** The count map `loadFolders` builds, one folder after the other; a
      failed count query gives 0 (`count || 0`). */
  function CountsOf(folders: seq<FolderRow>, files: seq<FileRow>, countReply: Id -> Reply): map<Id, nat> {
    if folders == [] then map[]
    else
      var n := |folders| - 1;
      CountsOf(folders[..n], files, countReply)[folders[n].id :=
        if countReply(folders[n].id).Ok? then FileCount(files, folders[n].id) else 0]
  }

  /** The map has an entry for exactly the listed folders, and each entry is
      that folder's file count, or 0 when its query failed. */
  lemma {:induction false} CountsOfSpec(folders: seq<FolderRow>, files: seq<FileRow>, countReply: Id -> Reply, id: Id)
    ensures id in CountsOf(folders, files, countReply) <==> exists i :: 0 <= i < |folders| && folders[i].id == id
    ensures id in CountsOf(folders, files, countReply) ==>
      CountsOf(folders, files, countReply)[id] == if countReply(id).Ok? then FileCount(files, id) else 0
  {
    if folders != [] {
      var n := |folders| - 1;
      var before := CountsOf(folders[..n], files, countReply);
      CountsOfSpec(folders[..n], files, countReply, id);
      if id != folders[n].id {
        if id in before {
          var i :| 0 <= i < n && folders[..n][i].id == id;
          assert folders[i].id == id;
        }
        if exists i :: 0 <= i < |folders| && folders[i].id == id {
          var i :| 0 <= i < |folders| && folders[i].id == id;
          assert folders[..n][i].id == id;
        }
      }
    }
  }

  /** The number a folder card shows: `folderFileCounts[folder.id] || 0`. */
  function DisplayCount(counts: map<Id, nat>, id: Id): nat {
    if id in counts then counts[id] else 0
  }

  /** Every listed folder shows its own file count when its query succeeded,
      and 0 when it failed. */
  lemma ListedFolderShowsItsCount(folders: seq<FolderRow>, files: seq<FileRow>, countReply: Id -> Reply, i: nat)
    requires i < |folders|
    ensures DisplayCount(CountsOf(folders, files, countReply), folders[i].id)
         == if countReply(folders[i].id).Ok? then FileCount(files, folders[i].id) else 0
  {
    CountsOfSpec(folders, files, countReply, folders[i].id);
  }

  /** The badge's count query: the user's notifications whose status is
      `false`; a null status is not counted. */
  function BadgeCount(notifications: seq<NotificationRow>, userId: Id): nat {
    |Filter(notifications, (n: NotificationRow) => n.recipientId == userId && n.readStatus == Some(false))|
  }

  /** What the bell shows: nothing for a count of zero or less, "9+" above
      nine, and the count's single digit otherwise. */
  function BadgeText(unreadCount: int): (r: Option<string>)
    ensures r.None? <==> unreadCount <= 0
    ensures r == Some("9+") <==> unreadCount > 9
    ensures 0 < unreadCount <= 9 ==> r == Some([DigitChar(unreadCount)])
  {
    if unreadCount <= 0 then None
    else if unreadCount > 9 then Some("9+")
    else Some(Decimal(unreadCount))
  }

  /** The panel's count after a load is the number of the user's
      notifications not marked read, whatever the lookups answered. */
  lemma PanelCountIsOwnUnread(ns: seq<NotificationRow>, profiles: seq<Profile>, files: seq<FileRow>, userId: Id,
                              profilesReply: Reply, filesReply: Reply)
    ensures NotificationsPanel.UnreadCount(NotificationsPanel.Loaded(ns, profiles, files, userId, profilesReply, filesReply))
         == |Filter(Filter(ns, (n: NotificationRow) => n.recipientId == userId), (n: NotificationRow) => n.readStatus != Some(true))|
  {
    var shown := NotificationsPanel.Loaded(ns, profiles, files, userId, profilesReply, filesReply);
    var rows := NotificationsPanel.Received(ns, userId);
    var unread := (n: NotificationRow) => n.readStatus != Some(true);
    FilterLengthCorresponds(shown, rows, NotificationsPanel.IsUnread, unread);
    NotificationsPanel.ReceivedIsOwnNewestFirst(ns, userId);
    FilterLengthPermutation(rows, Filter(ns, (n: NotificationRow) => n.recipientId == userId), unread);
  }

  /** The badge counts a subset of the user's notifications not marked read,
      and all of them when none of the user's rows has a null status. */
  lemma BadgeCountsOwnFalse(ns: seq<NotificationRow>, userId: Id)
    ensures var own := Filter(ns, (n: NotificationRow) => n.recipientId == userId);
      var unread := |Filter(own, (n: NotificationRow) => n.readStatus != Some(true))|;
      && BadgeCount(ns, userId) <= unread
      && ((forall i :: 0 <= i < |ns| && ns[i].recipientId == userId ==> ns[i].readStatus.Some?)
          ==> BadgeCount(ns, userId) == unread)
  {
    var mine := (n: NotificationRow) => n.recipientId == userId;
    var unread := (n: NotificationRow) => n.readStatus != Some(true);
    var badge := (n: NotificationRow) => n.recipientId == userId && n.readStatus == Some(false);
    var own := Filter(ns, mine);
    FilterAfterFilter(ns, mine, badge);
    FilterLengthMonotone(own, badge, unread);
    if forall i :: 0 <= i < |ns| && ns[i].recipientId == userId ==> ns[i].readStatus.Some? {
      forall i | 0 <= i < |own| ensures own[i].recipientId == userId && own[i].readStatus.Some? {
        assert own[i] in ns && mine(own[i]);
        var k :| 0 <= k < |ns| && ns[k] == own[i];
        assert ns[k].readStatus.Some?;
      }
      StatusKnownSameCount(own, userId);
    }
  }

  lemma StatusKnownSameCount(own: seq<NotificationRow>, userId: Id)
    requires forall i :: 0 <= i < |own| ==> own[i].recipientId == userId && own[i].readStatus.Some?
    ensures |Filter(own, (n: NotificationRow) => n.recipientId == userId && n.readStatus == Some(false))|
         == |Filter(own, (n: NotificationRow) => n.readStatus != Some(true))|
  {
    var badge := (n: NotificationRow) => n.recipientId == userId && n.readStatus == Some(false);
    var unread := (n: NotificationRow) => n.readStatus != Some(true);
    forall i | 0 <= i < |own| ensures badge(own[i]) == unread(own[i]) {
      var n := own[i];
      assert n.recipientId == userId;
      if n.readStatus == Some(true) {
        assert !badge(n) && !unread(n);
      } else {
        assert n.readStatus.Some?;
        assert n.readStatus.value == false;
        assert n.readStatus == Some(false);
        assert badge(n);
        assert unread(n);
      }
    }
    FilterLengthCorresponds(own, own, badge, unread);
  }

  /** The bell's badge and the panel's own count can disagree: the panel
      counts a null status as unread and the badge does not. They agree
      when none of the user's notifications has a null status, and
      otherwise the panel's count is never the smaller. */
  lemma PanelCountAndBadge(ns: seq<NotificationRow>, profiles: seq<Profile>, files: seq<FileRow>, userId: Id,
                           profilesReply: Reply, filesReply: Reply)
    ensures var shown := NotificationsPanel.Loaded(ns, profiles, files, userId, profilesReply, filesReply);
      && BadgeCount(ns, userId) <= NotificationsPanel.UnreadCount(shown)
      && ((forall i :: 0 <= i < |ns| && ns[i].recipientId == userId ==> ns[i].readStatus.Some?)
          ==> BadgeCount(ns, userId) == NotificationsPanel.UnreadCount(shown))
  {
    PanelCountIsOwnUnread(ns, profiles, files, userId, profilesReply, filesReply);
    BadgeCountsOwnFalse(ns, userId);
  }

  /** The page's state. */
  class Page {
    const userId: Id
    var folders: seq<FolderRow>
    var counts: map<Id, nat>
    var unreadCount: int
    var refreshTrigger: nat
    var showUpload: bool

    constructor (userId: Id)
      ensures this.userId == userId && folders == [] && counts == map[]
      ensures unreadCount == 0 && refreshTrigger == 0 && !showUpload
    {
      this.userId := userId;
      folders, counts := [], map[];
      unreadCount, refreshTrigger, showUpload := 0, 0, false;
    }

    /** `loadUnreadCount`: an error leaves `count` null, which becomes 0. */
    method LoadUnreadCount(db: Backend, reply: Reply)
      modifies this`unreadCount
      ensures unreadCount == if reply.Ok? then BadgeCount(db.notifications, userId) else 0
    {
      if reply.Ok? {
        unreadCount := BadgeCount(db.notifications, userId);
      } else {
        unreadCount := 0;
      }
    }

    /** `loadFolders`: when the folder query succeeds, the listing is
        replaced and a fresh count map is built one folder at a time;
        `countReply` is the backend's answer to each folder's count query. */
    method LoadFolders(db: Backend, query: Reply, countReply: Id -> Reply)
      modifies this`folders, this`counts
      ensures folders == if query.Ok? then RootFolders(db.folders, userId) else old(folders)
      ensures counts == if query.Ok? then CountsOf(RootFolders(db.folders, userId), db.files, countReply) else old(counts)
    {
      if query.Err? {
        return;
      }
      folders := RootFolders(db.folders, userId);
      var built: map<Id, nat> := map[];
      var i := 0;
      while i < |folders|
        invariant 0 <= i <= |folders|
        invariant built == CountsOf(folders[..i], db.files, countReply)
      {
        var folder := folders[i];
        var count := 0;
        if countReply(folder.id).Ok? {
          count := FileCount(db.files, folder.id);
        }
        assert folders[..i + 1][..i] == folders[..i];
        built := built[folder.id := count];
        i := i + 1;
      }
      assert folders[..i] == folders;
      counts := built;
    }

    /** `handleRootDrop`: a dragged file (the empty string when absent) wins
        and leaves its folder; otherwise a dragged folder becomes a root
        folder. The folders are reloaded unless the update failed. */
    method HandleRootDrop(db: Backend, fileId: string, folderId: string, reply: Reply,
                          query: Reply, countReply: Id -> Reply)
      modifies db`files, db`folders, this`folders, this`counts
      ensures fileId != "" ==>
        && db.files == (if reply.Ok? then MoveFileRows(old(db.files), fileId, None) else old(db.files))
        && db.folders == old(db.folders)
      ensures fileId == "" && folderId != "" ==>
        && db.folders == (if reply.Ok? then MoveFolderRows(old(db.folders), folderId, None) else old(db.folders))
        && db.files == old(db.files)
      ensures fileId == "" && folderId == "" ==> db.files == old(db.files) && db.folders == old(db.folders)
      ensures var reload := (reply.Ok? || (fileId == "" && folderId == "")) && query.Ok?;
        && folders == (if reload then RootFolders(db.folders, userId) else old(folders))
        && counts == (if reload then CountsOf(RootFolders(db.folders, userId), db.files, countReply) else old(counts))
    {
      var moved := true;
      if fileId != "" {
        moved := db.MoveFile(fileId, None, reply);
      } else if folderId != "" {
        moved := db.MoveFolder(folderId, None, reply);
      }
      if moved {
        LoadFolders(db, query, countReply);
      }
    }

    /** `handleUploadComplete` */
    method HandleUploadComplete()
      modifies this`showUpload, this`refreshTrigger
      ensures !showUpload && refreshTrigger == old(refreshTrigger) + 1
    {
      showUpload := false;
      refreshTrigger := refreshTrigger + 1;
    }

    /** `handleFolderCreated`: the file list is refreshed and the folders
        reloaded. */
    method HandleFolderCreated(db: Backend, query: Reply, countReply: Id -> Reply)
      modifies this`refreshTrigger, this`folders, this`counts
      ensures refreshTrigger == old(refreshTrigger) + 1
      ensures folders == if query.Ok? then RootFolders(db.folders, userId) else old(folders)
      ensures counts == if query.Ok? then CountsOf(RootFolders(db.folders, userId), db.files, countReply) else old(counts)
    {
      refreshTrigger := refreshTrigger + 1;
      LoadFolders(db, query, countReply);
    }
  }

  /** A folder of the user dropped on the page shows up in the reloaded
      listing, whatever its parent was. */
  lemma RootDropListsFolder(folders: seq<FolderRow>, userId: Id, i: nat)
    requires i < |folders| && folders[i].ownerId == userId
    ensures var moved := MoveFolderRows(folders, folders[i].id, None);
      moved[i] in RootFolders(moved, userId) && moved[i] == folders[i].(parentFolderId := None)
  {
    var moved := MoveFolderRows(folders, folders[i].id, None);
    RootFoldersSpec(moved, userId);
  }

  /** A file dropped on the page is counted in no folder afterwards. */
  lemma RootDropUncountsFile(files: seq<FileRow>, fileId: Id, folderId: Id)
    ensures forall f :: f in Filter(MoveFileRows(files, fileId, None), (g: FileRow) => g.folderId == Some(folderId))
                        ==> f.id != fileId
  {
  }
}
