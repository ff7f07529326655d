/** The preview page: its type badge (which checks for images first), what
    the page body shows for a type, loading one file, and renaming it. */
module FilePreview {
  import opened Wrappers
  import opened Text
  import opened Seqs
  import opened Rows
  import opened Store
  import FileList

  /** The page's badge text for a MIME type: "image" is checked first, then
      the same keywords, in the same order, as the file list's badge. */
  function PreviewLabel(fileType: string): (r: string)
    ensures r in {"AFBEELDING", "WORD", "EXCEL", "POWERPOINT", "PDF", "BESTAND"}
    ensures r == "AFBEELDING" <==> Contains(fileType, "image")
    ensures r == "WORD" <==> !Contains(fileType, "image") && Contains(fileType, "word")
    ensures r == "EXCEL" <==>
      && !Contains(fileType, "image") && !Contains(fileType, "word")
      && (Contains(fileType, "excel") || Contains(fileType, "spreadsheet"))
    ensures r == "POWERPOINT" <==>
      && !Contains(fileType, "image") && !Contains(fileType, "word")
      && !Contains(fileType, "excel") && !Contains(fileType, "spreadsheet")
      && (Contains(fileType, "powerpoint") || Contains(fileType, "presentation"))
    ensures r == "PDF" <==>
      && !Contains(fileType, "image") && !Contains(fileType, "word")
      && !Contains(fileType, "excel") && !Contains(fileType, "spreadsheet")
      && !Contains(fileType, "powerpoint") && !Contains(fileType, "presentation") && Contains(fileType, "pdf")
    ensures r == "BESTAND" <==>
      && !Contains(fileType, "image") && !Contains(fileType, "word") && !Contains(fileType, "excel")
      && !Contains(fileType, "spreadsheet") && !Contains(fileType, "powerpoint")
      && !Contains(fileType, "presentation") && !Contains(fileType, "pdf")
  {
    if Contains(fileType, "image") then "AFBEELDING"
    else if Contains(fileType, "word") then "WORD"
    else if Contains(fileType, "excel") || Contains(fileType, "spreadsheet") then "EXCEL"
    else if Contains(fileType, "powerpoint") || Contains(fileType, "presentation") then "POWERPOINT"
    else if Contains(fileType, "pdf") then "PDF"
    else "BESTAND"
  }

  /** The page's wording of a file-list badge. */
  function PageWording(listLabel: string): string {
    match listLabel
    case "Word" => "WORD"
    case "Excel" => "EXCEL"
    case "PowerPoint" => "POWERPOINT"
    case "PDF" => "PDF"
    case _ => "BESTAND"
  }

  /** The two badge variants agree on every type that does not mention
      "image"; an image type gets "AFBEELDING" here whatever the list says. */
  lemma BadgesAgreeOutsideImages(fileType: string)
    ensures !Contains(fileType, "image") ==> PreviewLabel(fileType) == PageWording(FileList.FileTypeLabel(fileType))
    ensures Contains(fileType, "image") ==> PreviewLabel(fileType) == "AFBEELDING"
  {
  }

  predicate IsImage(fileType: string) { Contains(fileType, "image") }
  predicate IsPdf(fileType: string) { Contains(fileType, "pdf") }
  predicate IsWord(fileType: string) { Contains(fileType, "word") }
  predicate IsExcel(fileType: string) { Contains(fileType, "excel") || Contains(fileType, "spreadsheet") }
  predicate IsPowerPoint(fileType: string) { Contains(fileType, "powerpoint") || Contains(fileType, "presentation") }

  /** The application the download prompt names. */
  function OfficeApp(fileType: string): string {
    if IsWord(fileType) then "Word" else if IsExcel(fileType) then "Excel" else "PowerPoint"
  }

  /** One block of the page body once the file is loaded. */
  datatype PagePart = InlineImage | InlinePdf | DownloadOnly(app: string)

  /** The blocks of the page body, top to bottom. */
  function PageParts(fileType: string): (r: seq<PagePart>)
    ensures InlineImage in r <==> IsImage(fileType)
    ensures InlinePdf in r <==> IsPdf(fileType)
    ensures (exists i :: 0 <= i < |r| && r[i].DownloadOnly?) <==> IsWord(fileType) || IsExcel(fileType) || IsPowerPoint(fileType)
  {
    var r := (if IsImage(fileType) then [InlineImage] else [])
      + (if IsPdf(fileType) then [InlinePdf] else [])
      + (if IsWord(fileType) || IsExcel(fileType) || IsPowerPoint(fileType) then [DownloadOnly(OfficeApp(fileType))] else []);
    assert IsWord(fileType) || IsExcel(fileType) || IsPowerPoint(fileType) ==> r[|r| - 1].DownloadOnly?;
    r
  }

  /** An office type that is neither an image nor a PDF gets only the
      download prompt, naming the application of its file-list badge. */
  lemma OfficeTypesDownloadOnly(fileType: string)
    requires IsWord(fileType) || IsExcel(fileType) || IsPowerPoint(fileType)
    requires !IsImage(fileType) && !IsPdf(fileType)
    ensures PageParts(fileType) == [DownloadOnly(FileList.FileTypeLabel(fileType))]
  {
  }

  /** A type with none of the keywords leaves the body empty: unlike the
      preview dialog, the page has no catch-all prompt. */
  lemma OtherTypesShowNothing(fileType: string)
    requires PreviewLabel(fileType) == "BESTAND"
    ensures PageParts(fileType) == []
  {
  }

  /** The page's state. */
  class Page {
    /** The route parameter; the empty string stands for a missing one. */
    const fileId: string
    var file: Option<FileRow>
    var newFileName: string
    var editing: bool
    var previewReady: bool

    constructor (fileId: string)
      ensures this.fileId == fileId && file == None && newFileName == "" && !editing && !previewReady
    {
      this.fileId := fileId;
      file, newFileName, editing, previewReady := None, "", false, false;
    }

    /** `loadFile`: `single()` needs exactly one row with the id; the name
        field starts as the stored name; a failed query or download sends
        the user back to the file list. */
    method LoadFile(db: Backend, query: Reply, download: Reply) returns (leave: bool)
      modifies this`file, this`newFileName, this`previewReady
      ensures var rows := Filter(db.files, (f: FileRow) => f.id == fileId);
        var found := fileId != "" && query.Ok? && |rows| == 1;
        && file == (if found then Some(rows[0]) else old(file))
        && newFileName == (if found then rows[0].filename else old(newFileName))
        && previewReady == (if found && download.Ok? then true else old(previewReady))
        && leave == (fileId != "" && !(found && download.Ok?))
    {
      leave := false;
      if fileId == "" {
        return;
      }
      var rows := Filter(db.files, (f: FileRow) => f.id == fileId);
      if query.Err? || |rows| != 1 {
        leave := true;
        return;
      }
      file := Some(rows[0]);
      newFileName := rows[0].filename;
      if download.Err? {
        leave := true;
        return;
      }
      previewReady := true;
    }

    /** The edit button. */
    method StartEditing()
      modifies this`editing
      ensures editing
    {
      editing := true;
    }

    /** The cancel button: the name field goes back to the stored name and
        edit mode ends. Without a loaded file the handler throws before
        changing anything, which the model renders as no change. */
    method CancelEditing()
      modifies this`newFileName, this`editing
      ensures file.Some? ==> newFileName == file.value.filename && !editing
      ensures file.None? ==> newFileName == old(newFileName) && editing == old(editing)
    {
      if file.Some? {
        newFileName := file.value.filename;
        editing := false;
      }
    }

    /** `handleRename`: nothing without a file or with a blank name; otherwise
        the trimmed name is stored, and the page shows it and leaves edit mode
        only after the update succeeded. */
    method HandleRename(db: Backend, reply: Reply)
      modifies db`files, this`file, this`editing
      ensures var name := Trim(old(newFileName));
        var renamed := old(file).Some? && name != [] && reply.Ok?;
        && db.files == (if renamed then RenameFileRows(old(db.files), old(file).value.id, name) else old(db.files))
        && file == (if renamed then Some(old(file).value.(filename := name)) else old(file))
        && editing == (if renamed then false else old(editing))
    {
      var name := Trim(newFileName);
      if file.None? || name == [] {
        return;
      }
      var ok := db.RenameFile(file.value.id, name, reply);
      if ok {
        file := Some(file.value.(filename := name));
        editing := false;
      }
    }

    /** `handleDownload` starts a download only once the file and its blob
        are loaded. */
    method HandleDownload() returns (started: bool)
      ensures started <==> file.Some? && previewReady
    {
      started := file.Some? && previewReady;
    }
  }

  /** After a rename the page's file and the stored row agree again: the row
      with that id carries the new name and its other columns as before. */
  lemma RenameKeepsPageAndRowInStep(files: seq<FileRow>, shown: FileRow, name: string, i: nat)
    requires i < |files| && files[i] == shown
    ensures RenameFileRows(files, shown.id, name)[i] == shown.(filename := name)
  {
  }
}
