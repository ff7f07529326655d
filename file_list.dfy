/** The file list: its type labels, the three views it loads ("uploaded",
    "shared" and "recent"), the filename search, the owner-only actions and
    the two-step delete. */
module FileList {
  import opened Wrappers
  import opened Text
  import opened Seqs
  import opened Rows
  import opened Store

  /** The badge text for a MIME type: the first keyword found wins, in the
      order word, excel/spreadsheet, powerpoint/presentation, pdf. */
  function FileTypeLabel(fileType: string): (r: string)
    ensures r == "Word" || r == "Excel" || r == "PowerPoint" || r == "PDF" || r == "Document"
    ensures r == "Word" <==> Contains(fileType, "word")
    ensures r == "Excel" <==>
      !Contains(fileType, "word") && (Contains(fileType, "excel") || Contains(fileType, "spreadsheet"))
    ensures r == "PowerPoint" <==>
      && !Contains(fileType, "word") && !Contains(fileType, "excel") && !Contains(fileType, "spreadsheet")
      && (Contains(fileType, "powerpoint") || Contains(fileType, "presentation"))
    ensures r == "PDF" <==>
      && !Contains(fileType, "word") && !Contains(fileType, "excel") && !Contains(fileType, "spreadsheet")
      && !Contains(fileType, "powerpoint") && !Contains(fileType, "presentation") && Contains(fileType, "pdf")
    ensures r == "Document" <==>
      && !Contains(fileType, "word") && !Contains(fileType, "excel") && !Contains(fileType, "spreadsheet")
      && !Contains(fileType, "powerpoint") && !Contains(fileType, "presentation") && !Contains(fileType, "pdf")
  {
    if Contains(fileType, "word") then "Word"
    else if Contains(fileType, "excel") || Contains(fileType, "spreadsheet") then "Excel"
    else if Contains(fileType, "powerpoint") || Contains(fileType, "presentation") then "PowerPoint"
    else if Contains(fileType, "pdf") then "PDF"
    else "Document"
  }

  /** Which list the component shows. Every view name other than "uploaded"
      and "shared", the files page's "recent" and "favorites" tabs among
      them, takes the recent branch. */
  datatype View = Recent | Uploaded | Shared

  /** One entry of the list: the file row, and the owner's profile when the
      entry came through a share. */
  datatype Listed = Listed(file: FileRow, owner: Option<Profile>)

  /** The order of `order('upload_date', { ascending: false })` and of the
      comparator `b.upload_date - a.upload_date`: newest first. */
  function NewerFirst(a: Listed, b: Listed): bool {
    a.file.uploadDate >= b.file.uploadDate
  }

  lemma NewerFirstIsTotalPreorder()
    ensures TotalPreorder(NewerFirst)
  {
  }

  /** Entries for rows read from `files` directly: no owner profile. */
  function Plain(rows: seq<FileRow>): (r: seq<Listed>)
    ensures |r| == |rows|
    ensures forall i :: 0 <= i < |r| ==> r[i] == Listed(rows[i], None)
  {
    seq(|rows|, i requires 0 <= i < |rows| => Listed(rows[i], None))
  }

  /** The "uploaded" view: the user's own rows, newest first. */
  function UploadedView(files: seq<FileRow>, userId: Id): seq<Listed> {
    SortBy(Plain(Filter(files, (r: FileRow) => r.ownerId == userId)), NewerFirst)
  }

  /** The first entry whose key is `id`: how an embedded record is found
      through its foreign key, for the shared file (`files!inner(...)`, keyed
      by `file_id`) and for its owner (`profiles!files_owner_id_fkey`). */
  function FirstWithKey<T>(entries: seq<T>, key: T -> Id, id: Id): (r: Option<T>)
    ensures r.Some? ==> r.value in entries && key(r.value) == id
    ensures r.None? ==> forall i :: 0 <= i < |entries| ==> key(entries[i]) != id
  {
    if entries == [] then None
    else if key(entries[0]) == id then Some(entries[0])
    else FirstWithKey(entries[1..], key, id)
  }

  /** The "shared" view: for each share granted to the user, in store order,
      the shared file with its owner's profile; a share whose file is gone is
      dropped by the inner join. */
  function SharedView(shares: seq<ShareRow>, files: seq<FileRow>, profiles: seq<Profile>, userId: Id): (r: seq<Listed>)
    ensures |r| <= |shares|
    ensures forall i :: 0 <= i < |r| ==>
      && r[i].file in files
      && (exists s :: s in shares && s.sharedWithUserId == userId && s.fileId == r[i].file.id)
      && r[i].owner == FirstWithKey(profiles, (p: Profile) => p.id, r[i].file.ownerId)
  {
    if shares == [] then []
    else
      var rest := SharedView(shares[1..], files, profiles, userId);
      var s := shares[0];
      if s.sharedWithUserId == userId then
        match FirstWithKey(files, (f: FileRow) => f.id, s.fileId)
        case Some(f) => [Listed(f, FirstWithKey(profiles, (p: Profile) => p.id, f.ownerId))] + rest
        case None => rest
      else rest
  }

  /** A share the "shared" view shows: granted to the user, and its file
      still exists. */
  predicate Visible(s: ShareRow, files: seq<FileRow>, userId: Id) {
    s.sharedWithUserId == userId && FirstWithKey(files, (f: FileRow) => f.id, s.fileId).Some?
  }

  /** The "shared" view has one line per visible share, in share order, each
      showing the first file row with the share's file id; a file shared
      twice is shown twice. */
  lemma {:induction false} SharedViewFollowsShares(shares: seq<ShareRow>, files: seq<FileRow>, profiles: seq<Profile>, userId: Id)
    ensures var r := SharedView(shares, files, profiles, userId);
      var kept := Filter(shares, (s: ShareRow) => Visible(s, files, userId));
      && |r| == |kept|
      && forall i :: 0 <= i < |r| ==> Some(r[i].file) == FirstWithKey(files, (f: FileRow) => f.id, kept[i].fileId)
    decreases |shares|
  {
    if shares != [] {
      var p := (s: ShareRow) => Visible(s, files, userId);
      var rest := SharedView(shares[1..], files, profiles, userId);
      SharedViewFollowsShares(shares[1..], files, profiles, userId);
      FilterCons(shares, p);
      var x := SharedViewHead(shares, files, profiles, userId);
      if p(shares[0]) {
        LinesMatchShares(x.value, rest, shares[0], Filter(shares[1..], p), files);
      }
    }
  }

  /** The line the first share contributes to the "shared" view, if any. */
  lemma SharedViewHead(shares: seq<ShareRow>, files: seq<FileRow>, profiles: seq<Profile>, userId: Id)
    returns (x: Option<Listed>)
    requires shares != []
    ensures x.Some? <==> Visible(shares[0], files, userId)
    ensures x.Some? ==> Some(x.value.file) == FirstWithKey(files, (f: FileRow) => f.id, shares[0].fileId)
    ensures SharedView(shares, files, profiles, userId)
         == (if x.Some? then [x.value] else []) + SharedView(shares[1..], files, profiles, userId)
  {
    var s := shares[0];
    if Visible(s, files, userId) {
      var f := FirstWithKey(files, (f: FileRow) => f.id, s.fileId).value;
      x := Some(Listed(f, FirstWithKey(profiles, (p: Profile) => p.id, f.ownerId)));
    } else {
      x := None;
    }
  }

  lemma LinesMatchShares(x: Listed, rest: seq<Listed>, s: ShareRow, kept: seq<ShareRow>, files: seq<FileRow>)
    requires Some(x.file) == FirstWithKey(files, (f: FileRow) => f.id, s.fileId)
    requires |rest| == |kept|
    requires forall i :: 0 <= i < |rest| ==> Some(rest[i].file) == FirstWithKey(files, (f: FileRow) => f.id, kept[i].fileId)
    ensures var r, k := [x] + rest, [s] + kept;
      forall i :: 0 <= i < |r| ==> Some(r[i].file) == FirstWithKey(files, (f: FileRow) => f.id, k[i].fileId)
  {
    var r, k := [x] + rest, [s] + kept;
    forall i | 1 <= i < |r| ensures Some(r[i].file) == FirstWithKey(files, (f: FileRow) => f.id, k[i].fileId) {
      assert r[i] == rest[i - 1] && k[i] == kept[i - 1];
    }
  }

  /** Every share granted to the user whose file exists shows that file. */
  lemma SharedViewComplete(shares: seq<ShareRow>, files: seq<FileRow>, profiles: seq<Profile>, userId: Id, s: ShareRow)
    requires s in shares && s.sharedWithUserId == userId
    requires exists j :: 0 <= j < |files| && files[j].id == s.fileId
    ensures var r := SharedView(shares, files, profiles, userId);
      exists i :: 0 <= i < |r| && r[i].file.id == s.fileId
  {
    var r := SharedView(shares, files, profiles, userId);
    var kept := Filter(shares, (s: ShareRow) => Visible(s, files, userId));
    SharedViewFollowsShares(shares, files, profiles, userId);
    var i :| 0 <= i < |kept| && kept[i] == s;
    assert r[i].file.id == s.fileId;
  }

  /** The two lists the "recent" view merges: the ten newest own files and
      the first ten shared ones (both queries carry `limit(10)`). */
  function RecentSources(files: seq<FileRow>, shares: seq<ShareRow>, profiles: seq<Profile>, userId: Id): (r: seq<Listed>)
    ensures |r| <= 20
  {
    Take(UploadedView(files, userId), 10) + Take(SharedView(shares, files, profiles, userId), 10)
  }

  /** The "recent" view: both sources merged, sorted newest first, cut to 20. */
  function RecentView(files: seq<FileRow>, shares: seq<ShareRow>, profiles: seq<Profile>, userId: Id): seq<Listed> {
    Take(SortBy(RecentSources(files, shares, profiles, userId), NewerFirst), 20)
  }

  /** The list `loadFiles` stores for a view. */
  function ViewOf(view: View, files: seq<FileRow>, shares: seq<ShareRow>, profiles: seq<Profile>, userId: Id): seq<Listed> {
    match view
    case Uploaded => UploadedView(files, userId)
    case Shared => SharedView(shares, files, profiles, userId)
    case Recent => RecentView(files, shares, profiles, userId)
  }

  /** The uploaded view holds exactly the user's own rows, newest first. */
  lemma UploadedViewIsOwnFilesNewestFirst(files: seq<FileRow>, userId: Id)
    ensures SortedBy(UploadedView(files, userId), NewerFirst)
    ensures forall x :: x in UploadedView(files, userId) <==> x.owner == None && x.file in files && x.file.ownerId == userId
    ensures multiset(UploadedView(files, userId)) == multiset(Plain(Filter(files, (r: FileRow) => r.ownerId == userId)))
  {
    var own := Filter(files, (r: FileRow) => r.ownerId == userId);
    var v := UploadedView(files, userId);
    NewerFirstIsTotalPreorder();
    SortBySorted(Plain(own), NewerFirst);
    forall x ensures x in v <==> x.owner == None && x.file in files && x.file.ownerId == userId {
      calc {
        x in v;
        x in multiset(v);
        x in multiset(Plain(own));
        x in Plain(own);
      }
      if x.owner == None && x.file in files && x.file.ownerId == userId {
        var i :| 0 <= i < |files| && files[i] == x.file;
        var j :| 0 <= j < |own| && own[j] == x.file;
        assert Plain(own)[j] == x;
      }
    }
  }

  /** The recent view is newest first and holds at most 20 entries. */
  lemma RecentViewSortedAndBounded(files: seq<FileRow>, shares: seq<ShareRow>, profiles: seq<Profile>, userId: Id)
    ensures SortedBy(RecentView(files, shares, profiles, userId), NewerFirst)
    ensures |RecentView(files, shares, profiles, userId)| <= 20
  {
    var sorted := SortBy(RecentSources(files, shares, profiles, userId), NewerFirst);
    NewerFirstIsTotalPreorder();
    SortBySorted(RecentSources(files, shares, profiles, userId), NewerFirst);
    assert RecentView(files, shares, profiles, userId) == sorted[..|RecentView(files, shares, profiles, userId)|];
  }

  /** Each source holds at most ten entries, so the cut to 20 drops nothing:
      the recent view is a reordering of the two sources together. */
  lemma RecentViewDropsNothing(files: seq<FileRow>, shares: seq<ShareRow>, profiles: seq<Profile>, userId: Id)
    ensures multiset(RecentView(files, shares, profiles, userId)) == multiset(RecentSources(files, shares, profiles, userId))
  {
    var src := RecentSources(files, shares, profiles, userId);
    assert |SortBy(src, NewerFirst)| <= 20;
  }

  /** Whether the search keeps an entry: the lower-cased query occurs in the
      lower-cased filename. */
  predicate MatchesSearch(l: Listed, query: string) {
    Contains(Lower(l.file.filename), Lower(query))
  }

  /** `filteredFiles`: the entries the search keeps. */
  function Search(files: seq<Listed>, query: string): seq<Listed> {
    Filter(files, (l: Listed) => MatchesSearch(l, query))
  }

  /** The search keeps exactly the matching entries, in their order. */
  lemma SearchKeepsMatchesInOrder(files: seq<Listed>, query: string)
    ensures forall x :: x in Search(files, query) <==> x in files && MatchesSearch(x, query)
    ensures IsSubseq(Search(files, query), files)
  {
    FilterIsSubseq(files, (l: Listed) => MatchesSearch(l, query));
    forall x | x in files && MatchesSearch(x, query) ensures x in Search(files, query) {
      var i :| 0 <= i < |files| && files[i] == x;
    }
  }

  /** An empty query keeps the whole list. */
  lemma SearchEmptyKeepsAll(files: seq<Listed>)
    ensures Search(files, "") == files
  {
    forall i | 0 <= i < |files| ensures MatchesSearch(files[i], "") {
      ContainsEmpty(Lower(files[i].file.filename));
    }
    FilterKeepsAll(files, (l: Listed) => MatchesSearch(l, ""));
  }

  /** The entries of an entry's menu. */
  datatype Action = Download | Share | Delete

  /** Download is always offered; share and delete only to the file's owner. */
  function Actions(file: Listed, userId: Id): (r: seq<Action>)
    ensures Download in r
    ensures Share in r <==> file.file.ownerId == userId
    ensures Delete in r <==> file.file.ownerId == userId
  {
    [Download] + (if file.file.ownerId == userId then [Share, Delete] else [])
  }

  /** The rows after the first still cover their blobs, and none of them
      shares the first row's blob. */
  lemma BlobsCoverTail(files: seq<FileRow>, blobs: set<string>)
    requires BlobsCover(files, blobs) && files != []
    ensures BlobsCover(files[1..], blobs)
    ensures forall x :: x in files[1..] ==> x.storageUrl != files[0].storageUrl
  {
    var t := files[1..];
    forall i, j | 0 <= i < j < |t| ensures t[i].storageUrl != t[j].storageUrl {
      assert t[i] == files[i + 1] && t[j] == files[j + 1];
    }
    forall x | x in t ensures x.storageUrl != files[0].storageUrl {
      var k :| 0 <= k < |t| && t[k] == x;
      assert files[k + 1] == x;
    }
  }

  /** A row whose blob is stored and used by no later row can go in front. */
  lemma CoverCons(h: FileRow, rest: seq<FileRow>, blobs: set<string>)
    requires BlobsCover(rest, blobs) && h.storageUrl in blobs
    requires forall x :: x in rest ==> x.storageUrl != h.storageUrl
    ensures BlobsCover([h] + rest, blobs)
  {
    var r := [h] + rest;
    forall i, j | 0 <= i < j < |r| ensures r[i].storageUrl != r[j].storageUrl {
      assert r[j] == rest[j - 1];
      if i > 0 {
        assert r[i] == rest[i - 1];
      }
    }
  }

  /** Removing the rows of one file and its blob leaves every other row's
      blob in place, as long as no other row shared that blob. */
  lemma {:induction false} RemoveFileKeepsCover(files: seq<FileRow>, blobs: set<string>, id: Id, key: string)
    requires BlobsCover(files, blobs)
    requires forall i :: 0 <= i < |files| && files[i].storageUrl == key ==> files[i].id == id
    ensures BlobsCover(Filter(files, (r: FileRow) => r.id != id), blobs - {key})
  {
    if files != [] {
      var h, t := files[0], files[1..];
      BlobsCoverTail(files, blobs);
      assert forall i :: 0 <= i < |t| && t[i].storageUrl == key ==> t[i].id == id by {
        forall i | 0 <= i < |t| ensures t[i] == files[i + 1] {}
      }
      RemoveFileKeepsCover(t, blobs, id, key);
      var ft := Filter(t, (r: FileRow) => r.id != id);
      if h.id != id {
        assert Filter(files, (r: FileRow) => r.id != id) == [h] + ft;
        assert h.storageUrl != key;
        assert forall x :: x in ft ==> x in t;
        CoverCons(h, ft, blobs - {key});
      } else {
        assert Filter(files, (r: FileRow) => r.id != id) == ft;
      }
    }
  }

  /** Deleting a stored file's row together with its blob keeps the store
      consistent. */
  lemma DeleteStoredFileKeepsCover(files: seq<FileRow>, blobs: set<string>, f: FileRow)
    requires BlobsCover(files, blobs) && f in files
    ensures BlobsCover(Filter(files, (r: FileRow) => r.id != f.id), blobs - {f.storageUrl})
  {
    forall i | 0 <= i < |files| && files[i].storageUrl == f.storageUrl ensures files[i].id == f.id {
      var k :| 0 <= k < |files| && files[k] == f;
    }
    RemoveFileKeepsCover(files, blobs, f.id, f.storageUrl);
  }

  /** The component's state: the list it shows. */
  class FileListComponent {
    const userId: Id
    const view: View
    var files: seq<Listed>

    constructor (userId: Id, view: View)
      ensures this.userId == userId && this.view == view && files == []
    {
      this.userId, this.view := userId, view;
      files := [];
    }

    /** `loadFiles`: the list is replaced by the view only when every query
        it needs succeeded (`own` answers the first query; `shared` answers
        the second query of the recent view). */
    method LoadFiles(db: Backend, own: Reply, shared: Reply)
      modifies this`files
      ensures files == if own.Ok? && (view == Recent ==> shared.Ok?)
                       then ViewOf(view, db.files, db.shares, db.profiles, userId)
                       else old(files)
    {
      if own.Ok? && (view == Recent ==> shared.Ok?) {
        files := ViewOf(view, db.files, db.shares, db.profiles, userId);
      }
    }

    /** `handleDelete`: after the confirmation, the blob is removed first and
        the row (with its shares) only when that succeeded; a blob failure
        leaves both in place. A full success reloads the list. */
    method HandleDelete(db: Backend, file: Listed, confirmed: bool, blob: Reply, row: Reply, reload: Reply)
      returns (deleted: bool)
      modifies db`blobs, db`files, db`shares, this`files
      ensures deleted == (confirmed && blob.Ok? && row.Ok?)
      ensures db.blobs == if confirmed && blob.Ok? then old(db.blobs) - {file.file.storageUrl} else old(db.blobs)
      ensures db.files == if deleted then Filter(old(db.files), (r: FileRow) => r.id != file.file.id) else old(db.files)
      ensures db.shares == if deleted then Filter(old(db.shares), (s: ShareRow) => s.fileId != file.file.id) else old(db.shares)
      ensures files == if deleted && reload.Ok?
                       then ViewOf(view, db.files, db.shares, db.profiles, userId)
                       else old(files)
      ensures old(db.Consistent()) && file.file in old(db.files) && (deleted || !(confirmed && blob.Ok?))
              ==> db.Consistent()
    {
      deleted := false;
      if !confirmed {
        return;
      }
      var blobRemoved := db.RemoveBlob(file.file.storageUrl, blob);
      if !blobRemoved {
        return;
      }
      var rowRemoved := db.DeleteFile(file.file.id, row);
      if !rowRemoved {
        return;
      }
      deleted := true;
      if old(db.Consistent()) && file.file in old(db.files) {
        DeleteStoredFileKeepsCover(old(db.files), old(db.blobs), file.file);
      }
      LoadFiles(db, reload, reload);
    }
  }
}
