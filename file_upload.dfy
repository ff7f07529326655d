/** The upload area: which of the files the dropzone hands over it keeps, the
    list of uploads it shows with their progress and errors, and the
    storage-then-row sequence it runs for each kept file. */
module FileUpload {
  import opened Wrappers
  import opened Text
  import opened Seqs
  import opened Rows
  import opened Store
  import FileList

  /** The MIME types the drop handler accepts. */
  const ValidTypes: seq<string> := [
    "application/pdf",
    "application/vnd.openxmlformats-officedocument.wordprocessingml.document",
    "application/msword",
    "application/vnd.ms-powerpoint",
    "application/vnd.openxmlformats-officedocument.presentationml.presentation",
    "application/vnd.ms-excel",
    "application/vnd.openxmlformats-officedocument.spreadsheetml.sheet"
  ]

  /** 50 MB, the largest accepted file. */
  const MaxUploadBytes: int := 50 * 1024 * 1024

  /** A browser `File`. The component tells uploads apart by identity
      (`uf.file === file`), which is reference equality here. */
  class BrowserFile {
    const name: string
    const mimeType: string
    const size: int

    constructor (name: string, mimeType: string, size: int)
      ensures this.name == name && this.mimeType == mimeType && this.size == size
    {
      this.name, this.mimeType, this.size := name, mimeType, size;
    }
  }

  /** The drop handler's filter: a listed type and at most 50 MB. */
  predicate Supported(f: BrowserFile) {
    f.mimeType in ValidTypes && f.size <= MaxUploadBytes
  }

  function SupportedFiles(acceptedFiles: seq<BrowserFile>): seq<BrowserFile> {
    Filter(acceptedFiles, Supported)
  }

  /** Of the files the dropzone accepted (`acceptedFiles`, already through the
      dropzone's own type and size checks), the handler keeps the supported
      ones, in order, and its rejection notice is due exactly when one of
      those accepted files is unsupported. */
  lemma SupportedFilesSelection(acceptedFiles: seq<BrowserFile>)
    ensures IsSubseq(SupportedFiles(acceptedFiles), acceptedFiles)
    ensures forall f :: f in SupportedFiles(acceptedFiles) <==> f in acceptedFiles && Supported(f)
    ensures |SupportedFiles(acceptedFiles)| != |acceptedFiles| <==> exists i :: 0 <= i < |acceptedFiles| && !Supported(acceptedFiles[i])
  {
    FilterIsSubseq(acceptedFiles, Supported);
    FilterFullIffAll(acceptedFiles, Supported);
    forall f | f in acceptedFiles && Supported(f) ensures f in SupportedFiles(acceptedFiles) {
      var i :| 0 <= i < |acceptedFiles| && acceptedFiles[i] == f;
    }
  }

  /** A type carrying one of the badge keywords does not get the generic
      badge. */
  lemma KeywordGivesSpecificLabel(t: string, keyword: string, k: nat)
    requires || keyword == "word" || keyword == "excel" || keyword == "spreadsheet"
             || keyword == "powerpoint" || keyword == "presentation" || keyword == "pdf"
    requires k + |keyword| <= |t| && forall j :: 0 <= j < |keyword| ==> t[k + j] == keyword[j]
    ensures Contains(t, keyword)
    ensures FileList.FileTypeLabel(t) != "Document"
  {
    assert t[k..k + |keyword|] == keyword;
    ContainsAt(t, keyword, k);
  }

  /** Every accepted type gets a specific badge, never the generic
      "Document" one. */
  lemma AcceptedTypeHasSpecificLabel(i: nat)
    requires i < |ValidTypes|
    ensures FileList.FileTypeLabel(ValidTypes[i]) != "Document"
  {
    if i == 0 {
      PdfLabel(ValidTypes[0]);
    } else if i <= 2 {
      WordTypesLabel(i);
    } else if i <= 4 {
      PresentationTypesLabel(i);
    } else {
      SpreadsheetTypesLabel(i);
    }
  }

  /** A PDF gets the "PDF" badge: its type holds "pdf" and none of the
      keywords checked before it. */
  lemma PdfLabel(t: string)
    requires t == "application/pdf"
    ensures FileList.FileTypeLabel(t) == "PDF"
  {
    ContainsAt(t, "pdf", 12);
    assert 'w' !in t && 'e' !in t;
    MissingCharNotContained(t, "word", 'w');
    MissingCharNotContained(t, "excel", 'e');
    MissingCharNotContained(t, "spreadsheet", 'e');
    MissingCharNotContained(t, "powerpoint", 'w');
    MissingCharNotContained(t, "presentation", 'e');
  }

  /** Both Word types get the "Word" badge. */
  lemma WordTypesLabel(i: nat)
    requires i == 1 || i == 2
    ensures FileList.FileTypeLabel(ValidTypes[i]) == "Word"
  {
    if i == 1 {
      KeywordGivesSpecificLabel(ValidTypes[i], "word", 46);
    } else {
      KeywordGivesSpecificLabel(ValidTypes[i], "word", 14);
    }
  }

  /** Both PowerPoint types get a specific badge. */
  lemma PresentationTypesLabel(i: nat)
    requires i == 3 || i == 4
    ensures FileList.FileTypeLabel(ValidTypes[i]) != "Document"
  {
    if i == 3 {
      KeywordGivesSpecificLabel(ValidTypes[i], "powerpoint", 19);
    } else {
      KeywordGivesSpecificLabel(ValidTypes[i], "presentation", 46);
    }
  }

  /** Both Excel types get a specific badge, and the legacy one, which
      holds no 'w' and so no "word", gets "Excel". */
  lemma SpreadsheetTypesLabel(i: nat)
    requires i == 5 || i == 6
    ensures FileList.FileTypeLabel(ValidTypes[i]) != "Document"
    ensures i == 5 ==> FileList.FileTypeLabel(ValidTypes[i]) == "Excel"
  {
    if i == 5 {
      ExcelLabel(ValidTypes[i]);
    } else {
      KeywordGivesSpecificLabel(ValidTypes[i], "spreadsheet", 46);
    }
  }

  lemma ExcelLabel(t: string)
    requires t == "application/vnd.ms-excel"
    ensures FileList.FileTypeLabel(t) == "Excel"
  {
    KeywordGivesSpecificLabel(t, "excel", 19);
    assert 'w' !in t;
    MissingCharNotContained(t, "word", 'w');
  }

  /** One line of the upload list; `error` is set when the upload failed. */
  datatype Entry = Entry(file: BrowserFile, progress: int, error: Option<string>)

  /** The new uploads appended at progress 0. */
  function Track(list: seq<Entry>, fs: seq<BrowserFile>): (r: seq<Entry>)
    ensures |r| == |list| + |fs| && r[..|list|] == list
    ensures forall i :: 0 <= i < |fs| ==> r[|list| + i] == Entry(fs[i], 0, None)
  {
    list + seq(|fs|, i requires 0 <= i < |fs| => Entry(fs[i], 0, None))
  }

  /** One tick of the progress timer of `f`: its lines below 90 advance by 10,
      every other line stays. */
  function Tick(list: seq<Entry>, f: BrowserFile): (r: seq<Entry>)
    ensures |r| == |list|
    ensures forall i :: 0 <= i < |r| ==> r[i].file == list[i].file && r[i].error == list[i].error
    ensures forall i :: 0 <= i < |r| ==>
      r[i].progress == if list[i].file == f && list[i].progress < 90 then list[i].progress + 10 else list[i].progress
  {
    seq(|list|, i requires 0 <= i < |list| =>
      if list[i].file == f && list[i].progress < 90 then list[i].(progress := list[i].progress + 10) else list[i])
  }

  /** The ticks the 200 ms timer fires while the storage upload runs. */
  function Ticks(list: seq<Entry>, f: BrowserFile, n: nat): (r: seq<Entry>)
    ensures |r| == |list|
    ensures forall i :: 0 <= i < |r| ==> r[i].file == list[i].file && r[i].error == list[i].error
    ensures forall i :: 0 <= i < |r| && list[i].file != f ==> r[i] == list[i]
    decreases n
  {
    if n == 0 then list else Ticks(Tick(list, f), f, n - 1)
  }

  /** The lines of `f` set to 100 once the storage upload answered. */
  function Finish(list: seq<Entry>, f: BrowserFile): (r: seq<Entry>)
    ensures |r| == |list|
    ensures forall i :: 0 <= i < |r| ==> r[i].file == list[i].file && r[i].error == list[i].error
    ensures forall i :: 0 <= i < |r| ==> r[i].progress == if list[i].file == f then 100 else list[i].progress
  {
    seq(|list|, i requires 0 <= i < |list| => if list[i].file == f then list[i].(progress := 100) else list[i])
  }

  /** The lines of `f` marked with the error message. */
  function Fail(list: seq<Entry>, f: BrowserFile, message: string): (r: seq<Entry>)
    ensures |r| == |list|
    ensures forall i :: 0 <= i < |r| ==> r[i].file == list[i].file && r[i].progress == list[i].progress
    ensures forall i :: 0 <= i < |r| ==> r[i].error == if list[i].file == f then Some(message) else list[i].error
  {
    seq(|list|, i requires 0 <= i < |list| => if list[i].file == f then list[i].(error := Some(message)) else list[i])
  }

  /** The lines of `f` removed. */
  function Untrack(list: seq<Entry>, f: BrowserFile): seq<Entry> {
    Filter(list, (e: Entry) => e.file != f)
  }

  /** Removing a file's lines drops exactly those lines, each as often as it
      occurs, and keeps the order of the rest. */
  lemma UntrackRemovesExactly(list: seq<Entry>, f: BrowserFile)
    ensures IsSubseq(Untrack(list, f), list)
    ensures forall e :: e in Untrack(list, f) <==> e in list && e.file != f
    ensures multiset(list) == multiset(Untrack(list, f)) + multiset(Filter(list, (e: Entry) => e.file == f))
    ensures |Untrack(list, f)| == |list| - |Filter(list, (e: Entry) => e.file == f)|
  {
    FilterIsSubseq(list, (e: Entry) => e.file != f);
    FilterPartition(list, (e: Entry) => e.file != f, (e: Entry) => e.file == f);
    assert |multiset(list)| == |multiset(Untrack(list, f))| + |multiset(Filter(list, (e: Entry) => e.file == f))|;
    forall e | e in list && e.file != f ensures e in Untrack(list, f) {
      var i :| 0 <= i < |list| && list[i] == e;
    }
  }

  /** The key of the stored blob: in the user's folder, a timestamp, then the
      original name. */
  function StorageKey(userId: Id, stamp: nat, name: string): (r: string)
    ensures StartsWith(r, userId + "/") && EndsWith(r, "_" + name)
    ensures |r| == |userId| + |Decimal(stamp)| + |name| + 2
    ensures r[|userId| + 1..|r| - |name| - 1] == Decimal(stamp)
  {
    var r := userId + "/" + Decimal(stamp) + "_" + name;
    assert r[..|userId + "/"|] == userId + "/";
    assert r[|r| - |"_" + name|..] == "_" + name;
    assert r[|userId| + 1..|r| - |name| - 1] == Decimal(stamp);
    r
  }

  /** Two uploads of the same name by the same user go to different keys
      exactly when their timestamps differ. */
  lemma StorageKeysDiffer(userId: Id, stamp1: nat, stamp2: nat, name: string)
    ensures StorageKey(userId, stamp1, name) == StorageKey(userId, stamp2, name) <==> stamp1 == stamp2
  {
    var k1, k2 := StorageKey(userId, stamp1, name), StorageKey(userId, stamp2, name);
    if k1 == k2 {
      assert k1[|userId| + 1..|k1| - |name| - 1] == k2[|userId| + 1..|k2| - |name| - 1];
    }
    DecimalInjective(stamp1, stamp2);
  }

  /** The columns inserted for an uploaded file. */
  function NewRowOf(userId: Id, f: BrowserFile, key: string): NewFile {
    NewFile(userId, f.name, f.mimeType, f.size, key)
  }

  /** What the environment does during one file's upload: the `Date.now()`
      of the key, the timer ticks before the storage answer, the two answers,
      and the time of the insert. */
  datatype Attempt = Attempt(stamp: nat, ticks: nat, storage: Reply, insert: Reply, now: int)

  /** The part of the world an upload changes: the upload list and the
      backend's files, blobs and id counter. */
  datatype Session = Session(list: seq<Entry>, files: seq<FileRow>, blobs: set<string>, nextId: nat)

  /** One iteration of the upload loop. */
  function Step(s: Session, userId: Id, f: BrowserFile, a: Attempt): Session {
    var key := StorageKey(userId, a.stamp, f.name);
    var shown := Finish(Ticks(s.list, f, a.ticks), f);
    var stored := UploadOutcome(s.blobs, key, a.storage);
    if stored.Err? then
      s.(list := Fail(shown, f, stored.message))
    else if a.insert.Err? then
      s.(list := Fail(shown, f, a.insert.message), blobs := s.blobs + {key})
    else
      Session(Untrack(shown, f), s.files + [FileRowOf(NewRowOf(userId, f, key), RowId(s.nextId), a.now)],
              s.blobs + {key}, s.nextId + 1)
  }

  /** Both the storage upload and the insert of `f` succeed from `s`. */
  predicate StepSucceeds(s: Session, userId: Id, f: BrowserFile, a: Attempt) {
    a.storage.Ok? && StorageKey(userId, a.stamp, f.name) !in s.blobs && a.insert.Ok?
  }

  /** One file's upload: when both calls succeed, exactly one row, made from
      the file, is appended under the next id, the blob is kept and the
      file's lines leave the list; otherwise no row is added, and the file's
      lines stay, at 100 with the first error, while every other line is
      untouched. A stored blob is kept even when the insert then fails. */
  lemma StepOutcome(s: Session, userId: Id, f: BrowserFile, a: Attempt)
    ensures var r, key := Step(s, userId, f, a), StorageKey(userId, a.stamp, f.name);
      && r.blobs == (if a.storage.Ok? then s.blobs + {key} else s.blobs)
      && (StepSucceeds(s, userId, f, a) ==>
        && |r.files| == |s.files| + 1 && r.files[..|s.files|] == s.files
        && RowFrom(r.files[|s.files|], userId, f, a) && r.files[|s.files|].id == RowId(s.nextId)
        && r.nextId == s.nextId + 1
        && r.list == Untrack(s.list, f))
      && (!StepSucceeds(s, userId, f, a) ==>
        && r.files == s.files && r.nextId == s.nextId
        && |r.list| == |s.list|
        && forall i :: 0 <= i < |r.list| ==>
          && r.list[i].file == s.list[i].file
          && (s.list[i].file != f ==> r.list[i] == s.list[i])
          && (s.list[i].file == f ==>
                && r.list[i].progress == 100
                && r.list[i].error == Some(if a.storage.Ok? && key !in s.blobs then a.insert.message
                                           else UploadOutcome(s.blobs, key, a.storage).message)))
  {
    var p := (e: Entry) => e.file != f;
    var ticked := Ticks(s.list, f, a.ticks);
    var shown := Finish(ticked, f);
    FilterIgnoresDropped(s.list, ticked, p);
    FilterIgnoresDropped(ticked, shown, p);
  }

  /** How many of the files were stored and recorded, each counted once. */
  function Succeeded(s: Session, userId: Id, fs: seq<BrowserFile>, attempts: seq<Attempt>): (n: nat)
    requires |fs| == |attempts|
    ensures n <= |fs|
    decreases |fs|
  {
    if fs == [] then 0
    else
      var k := |fs| - 1;
      Succeeded(s, userId, fs[..k], attempts[..k])
        + (if StepSucceeds(Steps(s, userId, fs[..k], attempts[..k]), userId, fs[k], attempts[k]) then 1 else 0)
  }

  /** The loop adds exactly one row per file whose upload and insert both
      succeeded, with consecutive ids, and no row for any other file. */
  lemma {:induction false} StepsRowCount(s: Session, userId: Id, fs: seq<BrowserFile>, attempts: seq<Attempt>)
    requires |fs| == |attempts|
    ensures var r := Steps(s, userId, fs, attempts);
      && |r.files| == |s.files| + Succeeded(s, userId, fs, attempts)
      && r.nextId == s.nextId + Succeeded(s, userId, fs, attempts)
      && forall k :: |s.files| <= k < |r.files| ==> r.files[k].id == RowId(s.nextId + k - |s.files|)
    decreases |fs|
  {
    if fs != [] {
      var n := |fs| - 1;
      var mid := Steps(s, userId, fs[..n], attempts[..n]);
      StepsRowCount(s, userId, fs[..n], attempts[..n]);
      StepOutcome(mid, userId, fs[n], attempts[n]);
    }
  }

  /** The upload loop over the first `|fs|` supported files. */
  function Steps(s: Session, userId: Id, fs: seq<BrowserFile>, attempts: seq<Attempt>): Session
    requires |fs| == |attempts|
    decreases |fs|
  {
    if fs == [] then s
    else Step(Steps(s, userId, fs[..|fs| - 1], attempts[..|fs| - 1]), userId, fs[|fs| - 1], attempts[|fs| - 1])
  }

  /** One more iteration of the loop is one more step. */
  lemma StepsExtend(s: Session, userId: Id, fs: seq<BrowserFile>, attempts: seq<Attempt>, i: nat)
    requires |fs| == |attempts| && i < |fs|
    ensures Steps(s, userId, fs[..i + 1], attempts[..i + 1])
         == Step(Steps(s, userId, fs[..i], attempts[..i]), userId, fs[i], attempts[i])
  {
    assert fs[..i + 1][..i] == fs[..i] && attempts[..i + 1][..i] == attempts[..i];
  }

  /** A progress the list can show: 100, or a multiple of 10 from 0 to 90. */
  predicate ShownProgress(p: int) {
    p == 100 || (0 <= p <= 90 && p % 10 == 0)
  }

  predicate ProgressShape(list: seq<Entry>) {
    forall i :: 0 <= i < |list| ==> ShownProgress(list[i].progress)
  }

  lemma {:induction false} TicksKeepShape(list: seq<Entry>, f: BrowserFile, n: nat)
    requires ProgressShape(list)
    ensures ProgressShape(Ticks(list, f, n))
    decreases n
  {
    if n > 0 {
      TicksKeepShape(Tick(list, f), f, n - 1);
    }
  }

  lemma StepKeepsShape(s: Session, userId: Id, f: BrowserFile, a: Attempt)
    requires ProgressShape(s.list)
    ensures ProgressShape(Step(s, userId, f, a).list)
  {
    TicksKeepShape(s.list, f, a.ticks);
  }

  /** The timer never pushes a line past 90, so every line shows 100 or a
      multiple of 10 up to 90, however many ticks fire. */
  lemma {:induction false} StepsKeepShape(s: Session, userId: Id, fs: seq<BrowserFile>, attempts: seq<Attempt>)
    requires |fs| == |attempts|
    requires ProgressShape(s.list)
    ensures ProgressShape(Steps(s, userId, fs, attempts).list)
    decreases |fs|
  {
    if fs != [] {
      var n := |fs| - 1;
      StepsKeepShape(s, userId, fs[..n], attempts[..n]);
      StepKeepsShape(Steps(s, userId, fs[..n], attempts[..n]), userId, fs[n], attempts[n]);
    }
  }

  lemma StepKeepsCover(s: Session, userId: Id, f: BrowserFile, a: Attempt)
    requires BlobsCover(s.files, s.blobs)
    ensures BlobsCover(Step(s, userId, f, a).files, Step(s, userId, f, a).blobs)
  {
  }

  /** Uploads keep the store consistent: a row is only inserted after its
      blob was stored under a key no other row uses. */
  lemma {:induction false} StepsKeepCover(s: Session, userId: Id, fs: seq<BrowserFile>, attempts: seq<Attempt>)
    requires |fs| == |attempts|
    requires BlobsCover(s.files, s.blobs)
    ensures BlobsCover(Steps(s, userId, fs, attempts).files, Steps(s, userId, fs, attempts).blobs)
    decreases |fs|
  {
    if fs != [] {
      var n := |fs| - 1;
      StepsKeepCover(s, userId, fs[..n], attempts[..n]);
      StepKeepsCover(Steps(s, userId, fs[..n], attempts[..n]), userId, fs[n], attempts[n]);
    }
  }

  /** The row a successful upload of `f` inserts: owned by the user, at root,
      named and typed after the file, pointing at the key the blob went to,
      and only when both answers were successes. */
  predicate RowFrom(row: FileRow, userId: Id, f: BrowserFile, a: Attempt) {
    && a.storage.Ok? && a.insert.Ok?
    && row == FileRowOf(NewRowOf(userId, f, StorageKey(userId, a.stamp, f.name)), row.id, a.now)
  }

  /** The loop only appends rows, at most one per file, and each one comes
      from a successful upload of one of the files. */
  lemma {:induction false} StepsInsertOnlyUploads(s: Session, userId: Id, fs: seq<BrowserFile>, attempts: seq<Attempt>)
    requires |fs| == |attempts|
    ensures var r := Steps(s, userId, fs, attempts).files;
      && s.files <= r && |r| <= |s.files| + |fs|
      && forall k :: |s.files| <= k < |r| ==> exists j :: 0 <= j < |fs| && RowFrom(r[k], userId, fs[j], attempts[j])
    decreases |fs|
  {
    if fs != [] {
      var n := |fs| - 1;
      var mid := Steps(s, userId, fs[..n], attempts[..n]);
      StepsInsertOnlyUploads(s, userId, fs[..n], attempts[..n]);
      var r := Steps(s, userId, fs, attempts).files;
      forall k | |s.files| <= k < |r| ensures exists j :: 0 <= j < |fs| && RowFrom(r[k], userId, fs[j], attempts[j]) {
        if k < |mid.files| {
          var j :| 0 <= j < n && RowFrom(mid.files[k], userId, fs[..n][j], attempts[..n][j]);
          assert RowFrom(r[k], userId, fs[j], attempts[j]);
        } else {
          assert RowFrom(r[k], userId, fs[n], attempts[n]);
        }
      }
    }
  }

  /** The lines of files outside `all`. */
  function Others(list: seq<Entry>, all: seq<BrowserFile>): seq<Entry> {
    Filter(list, (e: Entry) => e.file !in all)
  }

  lemma StepLeavesOthers(s: Session, userId: Id, f: BrowserFile, a: Attempt, all: seq<BrowserFile>)
    requires f in all
    ensures Others(Step(s, userId, f, a).list, all) == Others(s.list, all)
  {
    var p := (e: Entry) => e.file !in all;
    var ticked := Ticks(s.list, f, a.ticks);
    var shown := Finish(ticked, f);
    FilterIgnoresDropped(s.list, ticked, p);
    FilterIgnoresDropped(ticked, shown, p);
    var key := StorageKey(userId, a.stamp, f.name);
    var stored := UploadOutcome(s.blobs, key, a.storage);
    if stored.Err? {
      FilterIgnoresDropped(shown, Fail(shown, f, stored.message), p);
    } else if a.insert.Err? {
      FilterIgnoresDropped(shown, Fail(shown, f, a.insert.message), p);
    } else {
      FilterAfterFilter(shown, (e: Entry) => e.file != f, p);
    }
  }

  /** Uploading some files touches no line of any other file. */
  lemma {:induction false} StepsLeaveOthers(s: Session, userId: Id, fs: seq<BrowserFile>, attempts: seq<Attempt>)
    requires |fs| == |attempts|
    ensures Others(Steps(s, userId, fs, attempts).list, fs) == Others(s.list, fs)
  {
    StepsLeaveOthersOf(s, userId, fs, attempts, fs);
  }

  lemma {:induction false} StepsLeaveOthersOf(s: Session, userId: Id, fs: seq<BrowserFile>, attempts: seq<Attempt>, all: seq<BrowserFile>)
    requires |fs| == |attempts|
    requires forall j :: 0 <= j < |fs| ==> fs[j] in all
    ensures Others(Steps(s, userId, fs, attempts).list, all) == Others(s.list, all)
    decreases |fs|
  {
    if fs != [] {
      var n := |fs| - 1;
      assert forall j :: 0 <= j < n ==> fs[..n][j] == fs[j];
      StepsLeaveOthersOf(s, userId, fs[..n], attempts[..n], all);
      StepLeavesOthers(Steps(s, userId, fs[..n], attempts[..n]), userId, fs[n], attempts[n], all);
    }
  }

  /** The upload area's state: the list of uploads it shows. */
  class Uploader {
    const userId: Id
    var uploading: seq<Entry>

    constructor (userId: Id)
      ensures this.userId == userId && uploading == []
    {
      this.userId := userId;
      uploading := [];
    }

    ghost function Snapshot(db: Backend): Session
      reads this, db
    {
      Session(uploading, db.files, db.blobs, db.nextId)
    }

    /** One iteration of the loop: ticks, the storage upload, 100 %, then the
        row insert; a failure marks the file's lines, a success removes them. */
    method UploadOne(db: Backend, f: BrowserFile, a: Attempt)
      modifies this`uploading, db`blobs, db`files, db`nextId
      ensures Snapshot(db) == Step(old(Snapshot(db)), userId, f, a)
    {
      var key := StorageKey(userId, a.stamp, f.name);
      uploading := Ticks(uploading, f, a.ticks);
      var stored := db.UploadBlob(key, a.storage);
      uploading := Finish(uploading, f);
      if stored.Err? {
        uploading := Fail(uploading, f, stored.message);
        return;
      }
      var inserted := db.InsertFile(NewRowOf(userId, f, key), a.now, a.insert);
      if !inserted {
        uploading := Fail(uploading, f, a.insert.message);
        return;
      }
      uploading := Untrack(uploading, f);
    }

    /** `onDrop(acceptedFiles)`: filter, notice, track, upload each supported
        file in turn, then call the completion callback when any file was
        kept. */
    method OnDrop(db: Backend, acceptedFiles: seq<BrowserFile>, attempts: seq<Attempt>)
      returns (rejectedNotice: bool, completed: bool)
      requires |attempts| == |SupportedFiles(acceptedFiles)|
      modifies this`uploading, db`blobs, db`files, db`nextId
      ensures rejectedNotice == (|SupportedFiles(acceptedFiles)| != |acceptedFiles|)
      ensures completed == (SupportedFiles(acceptedFiles) != [])
      ensures Snapshot(db) == Steps(Session(Track(old(uploading), SupportedFiles(acceptedFiles)), old(db.files), old(db.blobs), old(db.nextId)),
                                    userId, SupportedFiles(acceptedFiles), attempts)
    {
      var supported := SupportedFiles(acceptedFiles);
      rejectedNotice := |supported| != |acceptedFiles|;
      uploading := Track(uploading, supported);
      ghost var start := Snapshot(db);
      assert start == Session(Track(old(uploading), supported), old(db.files), old(db.blobs), old(db.nextId));
      var i := 0;
      while i < |supported|
        invariant 0 <= i <= |supported|
        invariant Snapshot(db) == Steps(start, userId, supported[..i], attempts[..i])
      {
        StepsExtend(start, userId, supported, attempts, i);
        UploadOne(db, supported[i], attempts[i]);
        i := i + 1;
      }
      assert supported[..i] == supported && attempts[..i] == attempts;
      completed := |supported| > 0;
    }

    /** The close button of a line: every line of that file goes. */
    method RemoveUploadingFile(f: BrowserFile)
      modifies this`uploading
      ensures uploading == Untrack(old(uploading), f)
    {
      uploading := Untrack(uploading, f);
    }
  }

  /** A drop keeps the list's progress values well formed and the store
      consistent, and leaves the lines of files it did not keep alone. */
  lemma DropPreservesInvariants(list: seq<Entry>, files: seq<FileRow>, blobs: set<string>, nextId: nat,
                                userId: Id, acceptedFiles: seq<BrowserFile>, attempts: seq<Attempt>)
    requires |attempts| == |SupportedFiles(acceptedFiles)|
    requires ProgressShape(list) && BlobsCover(files, blobs)
    ensures var supported := SupportedFiles(acceptedFiles);
      var r := Steps(Session(Track(list, supported), files, blobs, nextId), userId, supported, attempts);
      ProgressShape(r.list) && BlobsCover(r.files, r.blobs) && Others(r.list, supported) == Others(list, supported)
  {
    var supported := SupportedFiles(acceptedFiles);
    var start := Session(Track(list, supported), files, blobs, nextId);
    StepsKeepShape(start, userId, supported, attempts);
    StepsKeepCover(start, userId, supported, attempts);
    StepsLeaveOthers(start, userId, supported, attempts);
    var p := (e: Entry) => e.file !in supported;
    FilterConcat(list, Track(list, supported)[|list|..], p);
    assert Track(list, supported) == list + Track(list, supported)[|list|..];
    assert Filter(Track(list, supported)[|list|..], p) == [] by {
      var tail := Track(list, supported)[|list|..];
      forall i | 0 <= i < |tail| ensures !p(tail[i]) {
        assert tail[i].file == supported[i];
      }
      FilterNoneKept(tail, p);
    }
  }
}
