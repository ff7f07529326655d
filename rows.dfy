/** The rows of the hosted tables `files`, `folders`, `file_shares`,
    `notifications` and `profiles`, the shapes the front end inserts, and the
    effect of a single-table update or delete on a table. */
module Rows {
  import opened Wrappers
  import opened Text
  import opened Seqs

  /** Row and user ids are opaque keys compared for equality only. */
  type Id = string

  /** What the backend answers to one call: success, or an error message. */
  datatype Reply = Ok | Err(message: string)

  /** A `files` row. Timestamps are milliseconds; `upload_date` is filled by the
      backend with the time of insertion. */
  datatype FileRow = FileRow(
    id: Id,
    filename: string,
    fileType: string,
    fileSize: int,
    storageUrl: string,
    ownerId: Id,
    folderId: Option<Id>,
    uploadDate: int,
    lastAccessed: Option<int>,
    thumbnailUrl: Option<string>)

  /** A `folders` row; `parent_folder_id` refers to another folder or is null (root). */
  datatype FolderRow = FolderRow(
    id: Id,
    name: string,
    color: string,
    ownerId: Id,
    parentFolderId: Option<Id>,
    createdAt: int,
    updatedAt: int)

  /** A `file_shares` row: `sharedWithUserId` may read file `fileId`. */
  datatype ShareRow = ShareRow(
    id: Id,
    fileId: Id,
    sharedByUserId: Id,
    sharedWithUserId: Id,
    sharedDate: int)

  /** A `notifications` row; `read_status` is a nullable boolean column. */
  datatype NotificationRow = NotificationRow(
    id: Id,
    recipientId: Id,
    senderId: Id,
    kind: string,
    fileId: Option<Id>,
    message: string,
    readStatus: Option<bool>,
    createdAt: int)

  /** A `profiles` row, restricted to the columns the core reads. */
  datatype Profile = Profile(id: Id, username: string, displayName: Option<string>)

  /** The columns the upload sets when it inserts a `files` row. */
  datatype NewFile = NewFile(ownerId: Id, filename: string, fileType: string, fileSize: int, storageUrl: string)

  /** The columns the folder dialog sets when it inserts a `folders` row. */
  datatype NewFolder = NewFolder(name: string, color: string, ownerId: Id)

  /** The columns the share dialog sets for each `file_shares` row. */
  datatype NewShare = NewShare(fileId: Id, sharedWithUserId: Id, sharedByUserId: Id)

  /** The columns the share dialog sets for each `notifications` row. */
  datatype NewNotification = NewNotification(recipientId: Id, senderId: Id, kind: string, fileId: Option<Id>, message: string)

  /** The id the backend gives to the `n`-th row it creates. */
  function RowId(n: nat): Id {
    Decimal(n)
  }

  /** Rows created at different counter values get different ids. */
  lemma RowIdsDiffer(m: nat, n: nat)
    ensures RowId(m) == RowId(n) <==> m == n
  {
    DecimalInjective(m, n);
  }

  /** The row the backend stores for an inserted file: the given columns, the
      new id, `upload_date` = now, and every column the insert leaves out null. */
  function FileRowOf(f: NewFile, id: Id, now: int): (r: FileRow)
    ensures r.folderId == None && r.lastAccessed == None && r.thumbnailUrl == None
  {
    FileRow(id, f.filename, f.fileType, f.fileSize, f.storageUrl, f.ownerId, None, now, None, None)
  }

  /** The row the backend stores for an inserted folder: no parent, so at root. */
  function FolderRowOf(f: NewFolder, id: Id, now: int): (r: FolderRow)
    ensures r.parentFolderId == None
  {
    FolderRow(id, f.name, f.color, f.ownerId, None, now, now)
  }

  /** The rows a batch insert into `file_shares` stores, with consecutive ids. */
  function ShareRowsOf(batch: seq<NewShare>, firstId: nat, now: int): (r: seq<ShareRow>)
    ensures |r| == |batch|
    ensures forall i :: 0 <= i < |r| ==>
      && r[i].id == RowId(firstId + i) && r[i].sharedDate == now
      && r[i].fileId == batch[i].fileId
      && r[i].sharedByUserId == batch[i].sharedByUserId
      && r[i].sharedWithUserId == batch[i].sharedWithUserId
  {
    seq(|batch|, i requires 0 <= i < |batch| =>
      ShareRow(RowId(firstId + i), batch[i].fileId, batch[i].sharedByUserId, batch[i].sharedWithUserId, now))
  }

  /** The rows a batch insert into `notifications` stores: unread, with
      consecutive ids. */
  function NotificationRowsOf(batch: seq<NewNotification>, firstId: nat, now: int): (r: seq<NotificationRow>)
    ensures |r| == |batch|
    ensures forall i :: 0 <= i < |r| ==>
      && r[i].id == RowId(firstId + i) && r[i].createdAt == now && r[i].readStatus == Some(false)
      && r[i].recipientId == batch[i].recipientId && r[i].senderId == batch[i].senderId
      && r[i].kind == batch[i].kind && r[i].fileId == batch[i].fileId && r[i].message == batch[i].message
  {
    seq(|batch|, i requires 0 <= i < |batch| =>
      var n := batch[i];
      NotificationRow(RowId(firstId + i), n.recipientId, n.senderId, n.kind, n.fileId, n.message, Some(false), now))
  }

  /** `update({ folder_id }).eq('id', id)` on `files`: the matching rows move,
      nothing else changes. */
  function MoveFileRows(files: seq<FileRow>, id: Id, folder: Option<Id>): (r: seq<FileRow>)
    ensures |r| == |files|
    ensures forall i :: 0 <= i < |r| ==> r[i].(folderId := files[i].folderId) == files[i]
    ensures forall i :: 0 <= i < |r| ==> r[i].folderId == if files[i].id == id then folder else files[i].folderId
  {
    seq(|files|, i requires 0 <= i < |files| =>
      if files[i].id == id then files[i].(folderId := folder) else files[i])
  }

  /** `update({ filename }).eq('id', id)` on `files`. */
  function RenameFileRows(files: seq<FileRow>, id: Id, name: string): (r: seq<FileRow>)
    ensures |r| == |files|
    ensures forall i :: 0 <= i < |r| ==> r[i].(filename := files[i].filename) == files[i]
    ensures forall i :: 0 <= i < |r| ==> r[i].filename == if files[i].id == id then name else files[i].filename
  {
    seq(|files|, i requires 0 <= i < |files| =>
      if files[i].id == id then files[i].(filename := name) else files[i])
  }

  /** `update({ parent_folder_id }).eq('id', id)` on `folders`. */
  function MoveFolderRows(folders: seq<FolderRow>, id: Id, parent: Option<Id>): (r: seq<FolderRow>)
    ensures |r| == |folders|
    ensures forall i :: 0 <= i < |r| ==> r[i].(parentFolderId := folders[i].parentFolderId) == folders[i]
    ensures forall i :: 0 <= i < |r| ==>
      r[i].parentFolderId == if folders[i].id == id then parent else folders[i].parentFolderId
  {
    seq(|folders|, i requires 0 <= i < |folders| =>
      if folders[i].id == id then folders[i].(parentFolderId := parent) else folders[i])
  }

  /** `update({ name }).eq('id', id)` on `folders`. */
  function RenameFolderRows(folders: seq<FolderRow>, id: Id, name: string): (r: seq<FolderRow>)
    ensures |r| == |folders|
    ensures forall i :: 0 <= i < |r| ==> r[i].(name := folders[i].name) == folders[i]
    ensures forall i :: 0 <= i < |r| ==> r[i].name == if folders[i].id == id then name else folders[i].name
  {
    seq(|folders|, i requires 0 <= i < |folders| =>
      if folders[i].id == id then folders[i].(name := name) else folders[i])
  }

  /** `update({ read_status: true }).in('id', ids)` on `notifications`. */
  function MarkReadRows(ns: seq<NotificationRow>, ids: set<Id>): (r: seq<NotificationRow>)
    ensures |r| == |ns|
    ensures forall i :: 0 <= i < |r| ==> r[i].(readStatus := ns[i].readStatus) == ns[i]
    ensures forall i :: 0 <= i < |r| ==> r[i].readStatus == if ns[i].id in ids then Some(true) else ns[i].readStatus
  {
    seq(|ns|, i requires 0 <= i < |ns| =>
      if ns[i].id in ids then ns[i].(readStatus := Some(true)) else ns[i])
  }

  /** Every file row names a stored blob, and no two rows name the same one. */
  predicate BlobsCover(files: seq<FileRow>, blobs: set<string>) {
    && (forall i :: 0 <= i < |files| ==> files[i].storageUrl in blobs)
    && (forall i, j :: 0 <= i < j < |files| ==> files[i].storageUrl != files[j].storageUrl)
  }
}

/** The hosted backend replaced by an in-memory store: one sequence of rows per
    table and a set of stored blob keys. Every call takes the reply the backend
    gives and changes its table only when that reply is a success. */
module Store {
  import opened Wrappers
  import opened Seqs
  import opened Rows

  /** The storage service's refusal of an upload onto a key that is taken. */
  const DuplicateKeyMessage := "The resource already exists"

  /** The answer to an upload: the service's own answer, except that an
      upload does not overwrite, so a taken key is refused. */
  function UploadOutcome(blobs: set<string>, key: string, reply: Reply): (r: Reply)
    ensures r.Ok? <==> reply.Ok? && key !in blobs
    ensures reply.Err? ==> r == reply
  {
    if reply.Ok? && key in blobs then Err(DuplicateKeyMessage) else reply
  }

  class Backend {
    var files: seq<FileRow>
    var folders: seq<FolderRow>
    var shares: seq<ShareRow>
    var notifications: seq<NotificationRow>
    var profiles: seq<Profile>
    var blobs: set<string>
    /** The counter the backend draws new row ids from. */
    var nextId: nat

    constructor (users: seq<Profile>)
      ensures files == [] && folders == [] && shares == [] && notifications == []
      ensures profiles == users && blobs == {} && nextId == 0
    {
      files, folders, shares, notifications := [], [], [], [];
      profiles, blobs, nextId := users, {}, 0;
    }

    /** No file row refers to a missing blob or shares its blob with another row. */
    ghost predicate Consistent()
      reads this
    {
      BlobsCover(files, blobs)
    }

    /** `storage.upload(key, file)`: stores the blob when the answer is a success. */
    method UploadBlob(key: string, reply: Reply) returns (result: Reply)
      modifies this`blobs
      ensures result == UploadOutcome(old(blobs), key, reply)
      ensures blobs == if result.Ok? then old(blobs) + {key} else old(blobs)
    {
      result := UploadOutcome(blobs, key, reply);
      if result.Ok? {
        blobs := blobs + {key};
      }
    }

    /** `storage.remove([key])` */
    method RemoveBlob(key: string, reply: Reply) returns (ok: bool)
      modifies this`blobs
      ensures ok == reply.Ok?
      ensures blobs == if ok then old(blobs) - {key} else old(blobs)
    {
      ok := reply.Ok?;
      if ok {
        blobs := blobs - {key};
      }
    }

    /** `from('files').insert(row)` */
    method InsertFile(row: NewFile, now: int, reply: Reply) returns (ok: bool)
      modifies this`files, this`nextId
      ensures ok == reply.Ok?
      ensures files == if ok then old(files) + [FileRowOf(row, RowId(old(nextId)), now)] else old(files)
      ensures nextId == if ok then old(nextId) + 1 else old(nextId)
    {
      ok := reply.Ok?;
      if ok {
        files := files + [FileRowOf(row, RowId(nextId), now)];
        nextId := nextId + 1;
      }
    }

    /** `from('files').delete().eq('id', id)`; the share rows of the file go
        with it (the foreign key cascades). */
    method DeleteFile(id: Id, reply: Reply) returns (ok: bool)
      modifies this`files, this`shares
      ensures ok == reply.Ok?
      ensures files == if ok then Filter(old(files), (r: FileRow) => r.id != id) else old(files)
      ensures shares == if ok then Filter(old(shares), (s: ShareRow) => s.fileId != id) else old(shares)
    {
      ok := reply.Ok?;
      if ok {
        files := Filter(files, (r: FileRow) => r.id != id);
        shares := Filter(shares, (s: ShareRow) => s.fileId != id);
      }
    }

    /** `from('files').update({ folder_id: folder }).eq('id', id)` */
    method MoveFile(id: Id, folder: Option<Id>, reply: Reply) returns (ok: bool)
      modifies this`files
      ensures ok == reply.Ok?
      ensures files == if ok then MoveFileRows(old(files), id, folder) else old(files)
    {
      ok := reply.Ok?;
      if ok {
        files := MoveFileRows(files, id, folder);
      }
    }

    /** `from('files').update({ filename: name }).eq('id', id)` */
    method RenameFile(id: Id, name: string, reply: Reply) returns (ok: bool)
      modifies this`files
      ensures ok == reply.Ok?
      ensures files == if ok then RenameFileRows(old(files), id, name) else old(files)
    {
      ok := reply.Ok?;
      if ok {
        files := RenameFileRows(files, id, name);
      }
    }

    /** `from('folders').insert(row)` */
    method InsertFolder(row: NewFolder, now: int, reply: Reply) returns (ok: bool)
      modifies this`folders, this`nextId
      ensures ok == reply.Ok?
      ensures folders == if ok then old(folders) + [FolderRowOf(row, RowId(old(nextId)), now)] else old(folders)
      ensures nextId == if ok then old(nextId) + 1 else old(nextId)
    {
      ok := reply.Ok?;
      if ok {
        folders := folders + [FolderRowOf(row, RowId(nextId), now)];
        nextId := nextId + 1;
      }
    }

    /** `from('folders').update({ parent_folder_id: parent }).eq('id', id)` */
    method MoveFolder(id: Id, parent: Option<Id>, reply: Reply) returns (ok: bool)
      modifies this`folders
      ensures ok == reply.Ok?
      ensures folders == if ok then MoveFolderRows(old(folders), id, parent) else old(folders)
    {
      ok := reply.Ok?;
      if ok {
        folders := MoveFolderRows(folders, id, parent);
      }
    }

    /** `from('folders').update({ name }).eq('id', id)` */
    method RenameFolder(id: Id, name: string, reply: Reply) returns (ok: bool)
      modifies this`folders
      ensures ok == reply.Ok?
      ensures folders == if ok then RenameFolderRows(old(folders), id, name) else old(folders)
    {
      ok := reply.Ok?;
      if ok {
        folders := RenameFolderRows(folders, id, name);
      }
    }

    /** `from('folders').delete().eq('id', id)` */
    method DeleteFolder(id: Id, reply: Reply) returns (ok: bool)
      modifies this`folders
      ensures ok == reply.Ok?
      ensures folders == if ok then Filter(old(folders), (f: FolderRow) => f.id != id) else old(folders)
    {
      ok := reply.Ok?;
      if ok {
        folders := Filter(folders, (f: FolderRow) => f.id != id);
      }
    }

    /** `from('file_shares').insert(batch)`: all rows or none. */
    method InsertShares(batch: seq<NewShare>, now: int, reply: Reply) returns (ok: bool)
      modifies this`shares, this`nextId
      ensures ok == reply.Ok?
      ensures shares == if ok then old(shares) + ShareRowsOf(batch, old(nextId), now) else old(shares)
      ensures nextId == if ok then old(nextId) + |batch| else old(nextId)
    {
      ok := reply.Ok?;
      if ok {
        shares := shares + ShareRowsOf(batch, nextId, now);
        nextId := nextId + |batch|;
      }
    }

    /** `from('notifications').insert(batch)`: all rows or none. */
    method InsertNotifications(batch: seq<NewNotification>, now: int, reply: Reply) returns (ok: bool)
      modifies this`notifications, this`nextId
      ensures ok == reply.Ok?
      ensures notifications == if ok then old(notifications) + NotificationRowsOf(batch, old(nextId), now)
                               else old(notifications)
      ensures nextId == if ok then old(nextId) + |batch| else old(nextId)
    {
      ok := reply.Ok?;
      if ok {
        notifications := notifications + NotificationRowsOf(batch, nextId, now);
        nextId := nextId + |batch|;
      }
    }

    /** `from('notifications').update({ read_status: true }).in('id', ids)` */
    method MarkRead(ids: set<Id>, reply: Reply) returns (ok: bool)
      modifies this`notifications
      ensures ok == reply.Ok?
      ensures notifications == if ok then MarkReadRows(old(notifications), ids) else old(notifications)
    {
      ok := reply.Ok?;
      if ok {
        notifications := MarkReadRows(notifications, ids);
      }
    }

    /** `from('notifications').delete().eq('id', id)` */
    method DeleteNotification(id: Id, reply: Reply) returns (ok: bool)
      modifies this`notifications
      ensures ok == reply.Ok?
      ensures notifications == if ok then Filter(old(notifications), (n: NotificationRow) => n.id != id)
                               else old(notifications)
    {
      ok := reply.Ok?;
      if ok {
        notifications := Filter(notifications, (n: NotificationRow) => n.id != id);
      }
    }
  }
}
