/** The notifications panel: the user's notifications newest first, each
    joined with its sender's profile and its file's name, the unread count,
    and the mark-as-read and delete actions. */
module NotificationsPanel {
  import opened Wrappers
  import opened Seqs
  import opened Rows
  import opened Store

  /** The `id, filename` columns the panel reads from `files`. */
  datatype FileName = FileName(id: Id, filename: string)

  /** One notification as the panel shows it. */
  datatype Shown = Shown(row: NotificationRow, sender: Option<Profile>, file: Option<FileName>)

  /** The order of `order('created_at', { ascending: false })`. */
  function NewestFirst(a: NotificationRow, b: NotificationRow): bool {
    a.createdAt >= b.createdAt
  }

  lemma NewestFirstIsTotalPreorder()
    ensures TotalPreorder(NewestFirst)
  {
  }

  /** The notifications addressed to the user, newest first. */
  function Received(ns: seq<NotificationRow>, userId: Id): seq<NotificationRow> {
    SortBy(Filter(ns, (n: NotificationRow) => n.recipientId == userId), NewestFirst)
  }

  /** The first query returns exactly the user's notifications, newest
      first. */
  lemma ReceivedIsOwnNewestFirst(ns: seq<NotificationRow>, userId: Id)
    ensures SortedBy(Received(ns, userId), NewestFirst)
    ensures multiset(Received(ns, userId)) == multiset(Filter(ns, (n: NotificationRow) => n.recipientId == userId))
    ensures forall n :: n in Received(ns, userId) <==> n in ns && n.recipientId == userId
  {
    var own := Filter(ns, (n: NotificationRow) => n.recipientId == userId);
    NewestFirstIsTotalPreorder();
    SortBySorted(own, NewestFirst);
    forall n ensures n in Received(ns, userId) <==> n in ns && n.recipientId == userId {
      calc {
        n in Received(ns, userId);
        n in multiset(Received(ns, userId));
        n in multiset(own);
        n in own;
      }
      if n in ns && n.recipientId == userId {
        var i :| 0 <= i < |ns| && ns[i] == n;
      }
    }
  }

  /** A `file_id` the panel looks up: present and not the empty string, the
      values JavaScript treats as true. */
  predicate HasFile(n: NotificationRow) {
    n.fileId.Some? && n.fileId.value != ""
  }

  /** `senderIds`: each sender once. */
  function SenderIds(rows: seq<NotificationRow>): (r: seq<Id>)
    ensures NoDuplicates(r)
    ensures forall i :: 0 <= i < |rows| ==> rows[i].senderId in r
    ensures forall x :: x in r ==> exists i :: 0 <= i < |rows| && rows[i].senderId == x
  {
    var all := seq(|rows|, i requires 0 <= i < |rows| => rows[i].senderId);
    var r := Dedup(all);
    assert forall i :: 0 <= i < |rows| ==> all[i] == rows[i].senderId;
    r
  }

  /** `fileIds`: each referenced file once. */
  function FileIds(rows: seq<NotificationRow>): (r: seq<Id>)
    ensures NoDuplicates(r)
    ensures forall i :: 0 <= i < |rows| && HasFile(rows[i]) ==> rows[i].fileId.value in r
    ensures forall x :: x in r ==> exists i :: 0 <= i < |rows| && HasFile(rows[i]) && rows[i].fileId.value == x
  {
    var withFile := Filter(rows, HasFile);
    var all := seq(|withFile|, i requires 0 <= i < |withFile| => withFile[i].fileId.value);
    var r := Dedup(all);
    forall i | 0 <= i < |rows| && HasFile(rows[i]) ensures rows[i].fileId.value in r {
      var k :| 0 <= k < |withFile| && withFile[k] == rows[i];
      assert all[k] == rows[i].fileId.value;
    }
    forall x | x in r ensures exists i :: 0 <= i < |rows| && HasFile(rows[i]) && rows[i].fileId.value == x {
      var k :| 0 <= k < |all| && all[k] == x;
      var i :| 0 <= i < |rows| && rows[i] == withFile[k];
    }
    r
  }

  /** `map.get(id)` on `new Map(entries)`: later entries overwrite earlier
      ones, so the last entry with that key wins. */
  function LastWithKey<T>(entries: seq<T>, key: T -> Id, id: Id): (r: Option<T>)
    ensures r.Some? ==> r.value in entries && key(r.value) == id
    ensures r.None? <==> forall i :: 0 <= i < |entries| ==> key(entries[i]) != id
  {
    if entries == [] then None
    else if key(entries[|entries| - 1]) == id then Some(entries[|entries| - 1])
    else LastWithKey(entries[..|entries| - 1], key, id)
  }

  /** The sender profiles found: none when the query failed. */
  function SenderProfiles(profiles: seq<Profile>, ids: seq<Id>, reply: Reply): seq<Profile> {
    if reply.Ok? then Filter(profiles, (p: Profile) => p.id in ids) else []
  }

  /** The file names found: none when the query failed. */
  function FileNames(files: seq<FileRow>, ids: seq<Id>, reply: Reply): (r: seq<FileName>) {
    if reply.Ok? then
      var found := Filter(files, (f: FileRow) => f.id in ids);
      seq(|found|, i requires 0 <= i < |found| => FileName(found[i].id, found[i].filename))
    else []
  }

  /** `enrichedNotifications`: each row with its sender's profile and, when
      it names a file, that file's name. */
  function Enrich(rows: seq<NotificationRow>, profiles: seq<Profile>, files: seq<FileName>): (r: seq<Shown>)
    ensures |r| == |rows|
    ensures forall i :: 0 <= i < |r| ==> r[i].row == rows[i]
  {
    seq(|rows|, i requires 0 <= i < |rows| =>
      Shown(rows[i],
            LastWithKey(profiles, (p: Profile) => p.id, rows[i].senderId),
            if HasFile(rows[i]) then LastWithKey(files, (f: FileName) => f.id, rows[i].fileId.value) else None))
  }

  /** What `loadNotifications` stores, given the answers to its three
      queries. */
  function Loaded(db: seq<NotificationRow>, profiles: seq<Profile>, files: seq<FileRow>, userId: Id,
                  profilesReply: Reply, filesReply: Reply): seq<Shown>
  {
    var rows := Received(db, userId);
    Enrich(rows, SenderProfiles(profiles, SenderIds(rows), profilesReply),
           FileNames(files, FileIds(rows), filesReply))
  }

  /** A loaded entry carries the profile of its own sender and the name of
      its own file; when the lookups succeeded, every sender that has a
      profile and every file that still exists is found. */
  lemma LoadedJoinsCorrectly(db: seq<NotificationRow>, profiles: seq<Profile>, files: seq<FileRow>, userId: Id,
                             profilesReply: Reply, filesReply: Reply)
    ensures var r := Loaded(db, profiles, files, userId, profilesReply, filesReply);
      forall i :: 0 <= i < |r| ==>
        && (r[i].sender.Some? ==> r[i].sender.value in profiles && r[i].sender.value.id == r[i].row.senderId)
        && (r[i].file.Some? ==> HasFile(r[i].row) && r[i].file.value.id == r[i].row.fileId.value)
        && (profilesReply.Ok? && (exists p :: p in profiles && p.id == r[i].row.senderId) ==> r[i].sender.Some?)
        && (filesReply.Ok? && HasFile(r[i].row) && (exists f :: f in files && f.id == r[i].row.fileId.value)
            ==> r[i].file.Some?)
  {
    var rows := Received(db, userId);
    var ps := SenderProfiles(profiles, SenderIds(rows), profilesReply);
    var fs := FileNames(files, FileIds(rows), filesReply);
    var r := Loaded(db, profiles, files, userId, profilesReply, filesReply);
    forall i | 0 <= i < |r|
      ensures r[i].sender.Some? ==> r[i].sender.value in profiles && r[i].sender.value.id == r[i].row.senderId
      ensures r[i].file.Some? ==> HasFile(r[i].row) && r[i].file.value.id == r[i].row.fileId.value
      ensures profilesReply.Ok? && (exists p :: p in profiles && p.id == r[i].row.senderId) ==> r[i].sender.Some?
      ensures filesReply.Ok? && HasFile(r[i].row) && (exists f :: f in files && f.id == r[i].row.fileId.value)
              ==> r[i].file.Some?
    {
      assert r[i].row == rows[i];
      assert r[i].sender == LastWithKey(ps, (p: Profile) => p.id, rows[i].senderId);
      assert r[i].file == if HasFile(rows[i]) then LastWithKey(fs, (f: FileName) => f.id, rows[i].fileId.value) else None;
      SenderFound(rows, profiles, profilesReply, i);
      if HasFile(rows[i]) {
        FileFound(rows, files, filesReply, i);
      }
    }
  }

  /** The sender lookup of one row finds that row's sender, and finds it
      whenever the query succeeded and the sender has a profile. */
  lemma SenderFound(rows: seq<NotificationRow>, profiles: seq<Profile>, reply: Reply, i: nat)
    requires i < |rows|
    ensures var s := LastWithKey(SenderProfiles(profiles, SenderIds(rows), reply), (p: Profile) => p.id, rows[i].senderId);
      && (s.Some? ==> s.value in profiles && s.value.id == rows[i].senderId)
      && (reply.Ok? && (exists p :: p in profiles && p.id == rows[i].senderId) ==> s.Some?)
  {
    var ps := SenderProfiles(profiles, SenderIds(rows), reply);
    if reply.Ok? && exists p :: p in profiles && p.id == rows[i].senderId {
      var p :| p in profiles && p.id == rows[i].senderId;
      var k :| 0 <= k < |profiles| && profiles[k] == p;
      assert p.id in SenderIds(rows);
      assert p in ps;
      var j :| 0 <= j < |ps| && ps[j] == p;
      assert ps[j].id == rows[i].senderId;
    }
  }

  /** The file lookup of one row that names a file finds that file's name,
      and finds it whenever the query succeeded and the file exists. */
  lemma FileFound(rows: seq<NotificationRow>, files: seq<FileRow>, reply: Reply, i: nat)
    requires i < |rows| && HasFile(rows[i])
    ensures var f := LastWithKey(FileNames(files, FileIds(rows), reply), (f: FileName) => f.id, rows[i].fileId.value);
      && (f.Some? ==> f.value.id == rows[i].fileId.value)
      && (reply.Ok? && (exists g :: g in files && g.id == rows[i].fileId.value) ==> f.Some?)
  {
    var fs := FileNames(files, FileIds(rows), reply);
    if reply.Ok? && exists g :: g in files && g.id == rows[i].fileId.value {
      var g :| g in files && g.id == rows[i].fileId.value;
      var found := Filter(files, (h: FileRow) => h.id in FileIds(rows));
      var k :| 0 <= k < |files| && files[k] == g;
      assert g in found;
      var j :| 0 <= j < |found| && found[j] == g;
      assert fs[j].id == g.id;
    }
  }

  /** The check in `!n.read_status`: an absent status counts as unread. */
  predicate IsUnread(s: Shown) {
    s.row.readStatus != Some(true)
  }

  /** `unreadCount` */
  function UnreadCount(list: seq<Shown>): nat {
    |Filter(list, IsUnread)|
  }

  /** The entries with this id shown as read; nothing else changes. */
  function MarkShown(list: seq<Shown>, id: Id): (r: seq<Shown>)
    ensures |r| == |list|
    ensures forall i :: 0 <= i < |r| ==> r[i] == if list[i].row.id == id then list[i].(row := list[i].row.(readStatus := Some(true))) else list[i]
  {
    seq(|list|, i requires 0 <= i < |list| =>
      if list[i].row.id == id then list[i].(row := list[i].row.(readStatus := Some(true))) else list[i])
  }

  /** Every entry shown as read. */
  function AllShownRead(list: seq<Shown>): (r: seq<Shown>)
    ensures |r| == |list|
    ensures forall i :: 0 <= i < |r| ==> r[i] == list[i].(row := list[i].row.(readStatus := Some(true)))
  {
    seq(|list|, i requires 0 <= i < |list| => list[i].(row := list[i].row.(readStatus := Some(true))))
  }

  /** The ids of the unread entries, the set `markAllAsRead` sends. */
  function UnreadIds(list: seq<Shown>): (r: set<Id>)
    ensures forall i :: 0 <= i < |list| && IsUnread(list[i]) ==> list[i].row.id in r
    ensures forall x :: x in r ==> exists i :: 0 <= i < |list| && IsUnread(list[i]) && list[i].row.id == x
  {
    set i | 0 <= i < |list| && IsUnread(list[i]) :: list[i].row.id
  }

  /** Marking one id read lowers the count by exactly the unread entries
      with that id. */
  lemma {:induction false} MarkShownCount(list: seq<Shown>, id: Id)
    ensures UnreadCount(MarkShown(list, id))
         == UnreadCount(list) - |Filter(list, (s: Shown) => IsUnread(s) && s.row.id == id)|
  {
    if list != [] {
      MarkShownCount(list[1..], id);
      assert MarkShown(list, id)[1..] == MarkShown(list[1..], id);
    }
  }

  /** After marking everything read nothing is unread. */
  lemma AllShownReadHasNoUnread(list: seq<Shown>)
    ensures UnreadCount(AllShownRead(list)) == 0
  {
    FilterNoneKept(AllShownRead(list), IsUnread);
  }

  /** Deleting entries never raises the count. */
  lemma {:induction false} RemoveLowersCount(list: seq<Shown>, id: Id)
    ensures UnreadCount(Filter(list, (s: Shown) => s.row.id != id)) <= UnreadCount(list)
  {
    if list != [] {
      var keep := (s: Shown) => s.row.id != id;
      var head := if keep(list[0]) then [list[0]] else [];
      RemoveLowersCount(list[1..], id);
      assert Filter(list, keep) == head + Filter(list[1..], keep);
      FilterConcat(head, Filter(list[1..], keep), IsUnread);
    }
  }

  /** The panel's state: the entries it shows. */
  class Panel {
    const userId: Id
    var notifications: seq<Shown>

    constructor (userId: Id)
      ensures this.userId == userId && notifications == []
    {
      this.userId := userId;
      notifications := [];
    }

    /** `loadNotifications`: a failed first query keeps the old list; failed
        lookups only leave the joins empty. */
    method LoadNotifications(db: Backend, main: Reply, profilesReply: Reply, filesReply: Reply)
      modifies this`notifications
      ensures notifications == if main.Ok? then Loaded(db.notifications, db.profiles, db.files, userId, profilesReply, filesReply)
                               else old(notifications)
    {
      if main.Ok? {
        notifications := Loaded(db.notifications, db.profiles, db.files, userId, profilesReply, filesReply);
      }
    }

    /** `markAsRead`: the row is updated, and the entry shown read only when
        the update succeeded. */
    method MarkAsRead(db: Backend, id: Id, reply: Reply)
      modifies db`notifications, this`notifications
      ensures db.notifications == if reply.Ok? then MarkReadRows(old(db.notifications), {id}) else old(db.notifications)
      ensures notifications == if reply.Ok? then MarkShown(old(notifications), id) else old(notifications)
    {
      var ok := db.MarkRead({id}, reply);
      if ok {
        notifications := MarkShown(notifications, id);
      }
    }

    /** `markAllAsRead`: nothing happens when nothing is unread; otherwise
        the unread rows are updated and, on success, every entry is shown
        read. */
    method MarkAllAsRead(db: Backend, reply: Reply) returns (sent: bool)
      modifies db`notifications, this`notifications
      ensures sent == (UnreadIds(old(notifications)) != {})
      ensures db.notifications == if sent && reply.Ok? then MarkReadRows(old(db.notifications), UnreadIds(old(notifications)))
                                  else old(db.notifications)
      ensures notifications == if sent && reply.Ok? then AllShownRead(old(notifications)) else old(notifications)
    {
      var ids := UnreadIds(notifications);
      sent := ids != {};
      if !sent {
        return;
      }
      var ok := db.MarkRead(ids, reply);
      if ok {
        notifications := AllShownRead(notifications);
      }
    }

    /** `deleteNotification`: the entry leaves the list only when the row was
        deleted. */
    method DeleteNotification(db: Backend, id: Id, reply: Reply)
      modifies db`notifications, this`notifications
      ensures db.notifications == if reply.Ok? then Filter(old(db.notifications), (n: NotificationRow) => n.id != id)
                                  else old(db.notifications)
      ensures notifications == if reply.Ok? then Filter(old(notifications), (s: Shown) => s.row.id != id)
                               else old(notifications)
    {
      var ok := db.DeleteNotification(id, reply);
      if ok {
        notifications := Filter(notifications, (s: Shown) => s.row.id != id);
      }
    }
  }
}
