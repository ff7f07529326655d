/** The preview dialog: which inline viewers it shows for a file, and when it
    falls back to the download prompt. */
module FilePreviewDialog {
  import opened Text

  /** `isImage` */
  predicate IsImage(fileType: string) {
    Contains(fileType, "image")
  }

  /** `isPdf` */
  predicate IsPdf(fileType: string) {
    Contains(fileType, "pdf")
  }

  /** `isText`: a text type, or a name ending in ".txt". */
  predicate IsText(fileType: string, filename: string) {
    Contains(fileType, "text") || EndsWith(filename, ".txt")
  }

  /** One block of the dialog's body once the preview is loaded. */
  datatype Part = ImageViewer | PdfViewer | TextViewer | Fallback

  /** The blocks of the body, top to bottom: each viewer under its own flag,
      and the download prompt when no flag holds. */
  function Parts(fileType: string, filename: string): (r: seq<Part>)
    ensures ImageViewer in r <==> IsImage(fileType)
    ensures PdfViewer in r <==> IsPdf(fileType)
    ensures TextViewer in r <==> IsText(fileType, filename)
    ensures Fallback in r <==> !IsImage(fileType) && !IsPdf(fileType) && !IsText(fileType, filename)
    ensures Fallback in r <==> r == [Fallback]
  {
    (if IsImage(fileType) then [ImageViewer] else [])
    + (if IsPdf(fileType) then [PdfViewer] else [])
    + (if IsText(fileType, filename) then [TextViewer] else [])
    + (if !IsImage(fileType) && !IsPdf(fileType) && !IsText(fileType, filename) then [Fallback] else [])
  }

  /** The position of a part on the dialog, top to bottom. */
  function Rank(p: Part): nat {
    match p
    case ImageViewer => 0
    case PdfViewer => 1
    case TextViewer => 2
    case Fallback => 3
  }

  /** For every type and name, each part appears at most once, and the
      parts that appear keep the dialog's order: image, PDF, text. */
  lemma PartsInDialogOrder(fileType: string, filename: string)
    ensures var r := Parts(fileType, filename);
      forall i, j :: 0 <= i < j < |r| ==> Rank(r[i]) < Rank(r[j])
  {
  }

  /** The viewers are not exclusive: a type naming both an image and a PDF,
      with a ".txt" name, gets all three viewers at once. */
  lemma ViewersAreIndependent(fileType: string, filename: string)
    requires fileType == "image/pdf" && filename == "notes.txt"
    ensures Parts(fileType, filename) == [ImageViewer, PdfViewer, TextViewer]
  {
    ContainsAt(fileType, "image", 0);
    ContainsAt(fileType, "pdf", 6);
    assert filename[|filename| - 4..] == ".txt";
  }
}
