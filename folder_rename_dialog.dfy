/** The dialog that renames a folder: the name check and the one-field
    update. */
module FolderRenameDialog {
  import opened Seqs
  import opened Text
  import opened Rows
  import opened Store
  import FilesPage

  /** The dialog's state. */
  class Dialog {
    const folderId: Id
    var folderName: string

    /** The name field starts with the folder's current name. */
    constructor (folderId: Id, currentName: string)
      ensures this.folderId == folderId && folderName == currentName
    {
      this.folderId := folderId;
      folderName := currentName;
    }

    /** Typing in the name field. */
    method SetName(name: string)
      modifies this`folderName
      ensures folderName == name
    {
      folderName := name;
    }

    /** `handleRename`: a name that is blank after trimming is refused;
        otherwise only the name of the folder's row is set, to the trimmed
        name. `onSuccess` and `onClose` run only after the update succeeded
        (`renamed`). */
    method HandleRename(db: Backend, reply: Reply) returns (renamed: bool)
      modifies db`folders
      ensures renamed == (Trim(folderName) != [] && reply.Ok?)
      ensures db.folders == if renamed then RenameFolderRows(old(db.folders), folderId, Trim(folderName)) else old(db.folders)
    {
      var name := Trim(folderName);
      if name == [] {
        return false;
      }
      renamed := db.RenameFolder(folderId, name, reply);
    }
  }

  /** A rename neither adds nor removes a folder from anyone's root listing,
      and the listed row of the renamed folder carries the new name. */
  lemma RenameKeepsListing(folders: seq<FolderRow>, folderId: Id, name: string, userId: Id)
    ensures |FilesPage.RootFolders(RenameFolderRows(folders, folderId, name), userId)|
         == |FilesPage.RootFolders(folders, userId)|
    ensures forall f :: f in FilesPage.RootFolders(folders, userId) && f.id == folderId
              ==> f.(name := name) in FilesPage.RootFolders(RenameFolderRows(folders, folderId, name), userId)
  {
    var renamed := RenameFolderRows(folders, folderId, name);
    var own := (f: FolderRow) => FilesPage.IsOwnRoot(f, userId);
    FilterLengthCorresponds(renamed, folders, own, own);
    FilesPage.RootFoldersSpec(folders, userId);
    FilesPage.RootFoldersSpec(renamed, userId);
    forall f | f in FilesPage.RootFolders(folders, userId) && f.id == folderId
      ensures f.(name := name) in FilesPage.RootFolders(renamed, userId)
    {
      var i :| 0 <= i < |folders| && folders[i] == f;
      assert renamed[i] == f.(name := name);
    }
  }
}
