/** The dialog that creates a folder: its colour palette, the name check,
    the row it inserts, and the reset after a successful insert. */
module FolderDialog {
  import opened Wrappers
  import opened Text
  import opened Rows
  import opened Store
  import FolderCard
  import FilesPage

  /** The colours offered, in the order the dialog shows them. */
  const Palette: seq<string> := ["#B8E6D5", "#E4D4F4", "#FFD4C2", "#C2E0FF", "#FFF4B8", "#FFD4E5", "#D4E8D4", "#FFB8C2"]

  /** None of the offered colours has an icon of its own on a folder card, so
      every folder made here is drawn with the default green icon. */
  lemma PaletteColoursShowGreenIcon(i: nat)
    requires i < |Palette|
    ensures FolderCard.FolderIcon(Palette[i]) == FolderCard.Green
    ensures Palette[i] !in FolderCard.IconMap
  {
  }

  /** Whatever swatch was picked, the folder is drawn with the green icon. */
  lemma PaletteColourShowsGreenIcon(color: string)
    requires color in Palette
    ensures FolderCard.FolderIcon(color) == FolderCard.Green
  {
    var i :| 0 <= i < |Palette| && Palette[i] == color;
    PaletteColoursShowGreenIcon(i);
  }

  /** A folder made here is listed on the files page of its owner, under
      the trimmed name it was given. */
  lemma CreatedFolderIsListed(folders: seq<FolderRow>, name: string, color: string, userId: Id, id: Id, now: int)
    ensures var row := FolderRowOf(NewFolder(name, color, userId), id, now);
      row in FilesPage.RootFolders(folders + [row], userId) && row.name == name && row.color == color
  {
    var row := FolderRowOf(NewFolder(name, color, userId), id, now);
    FilesPage.RootFoldersSpec(folders + [row], userId);
    assert row in folders + [row];
  }

  /** The dialog's state. */
  class Dialog {
    const userId: Id
    var folderName: string
    var selectedColor: string

    /** The selected colour is one of the swatches. */
    predicate Valid()
      reads this
    {
      selectedColor in Palette
    }

    constructor (userId: Id)
      ensures this.userId == userId && folderName == "" && selectedColor == Palette[0]
      ensures Valid()
    {
      this.userId := userId;
      folderName, selectedColor := "", Palette[0];
    }

    /** Typing in the name field. */
    method SetName(name: string)
      modifies this`folderName
      ensures folderName == name
    {
      folderName := name;
    }

    /** Clicking a colour swatch; only the palette's colours are offered. */
    method SelectColor(color: string)
      requires color in Palette
      modifies this`selectedColor
      ensures selectedColor == color
      ensures Valid()
    {
      selectedColor := color;
    }

    /** `handleCreate`: a name that is blank after trimming is refused;
        otherwise a root folder with the trimmed name, the selected colour and
        the user as owner is inserted. Only a successful insert resets the
        fields and runs `onSuccess` and `onClose` (`created`). The new folder,
        coloured from the palette, is drawn with the green icon. */
    method HandleCreate(db: Backend, reply: Reply, now: int) returns (created: bool)
      modifies db`folders, db`nextId, this`folderName, this`selectedColor
      ensures var name := Trim(old(folderName));
        && created == (name != [] && reply.Ok?)
        && db.folders == (if created
                          then old(db.folders) + [FolderRowOf(NewFolder(name, old(selectedColor), userId), RowId(old(db.nextId)), now)]
                          else old(db.folders))
        && db.nextId == (if created then old(db.nextId) + 1 else old(db.nextId))
        && folderName == (if created then "" else old(folderName))
        && selectedColor == (if created then Palette[0] else old(selectedColor))
      ensures old(Valid()) ==> Valid()
      ensures old(Valid()) && created ==> FolderCard.FolderIcon(db.folders[|db.folders| - 1].color) == FolderCard.Green
    {
      var name := Trim(folderName);
      if Valid() {
        PaletteColourShowsGreenIcon(selectedColor);
      }
      if name == [] {
        return false;
      }
      created := db.InsertFolder(NewFolder(name, selectedColor, userId), now, reply);
      if created {
        folderName := "";
        selectedColor := Palette[0];
      }
    }
  }

  /** The stored name is never blank and never starts or ends with white
      space. */
  lemma StoredNameIsTrimmed(typed: string)
    requires Trim(typed) != []
    ensures !IsSpace(Trim(typed)[0]) && !IsSpace(Trim(typed)[|Trim(typed)| - 1])
  {
    TrimIsInfix(typed);
  }
}
