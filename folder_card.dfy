/** A folder card: the icon picked for its colour, the file-count label, and
    the two things it changes in the store, a drop onto the card and delete.
    The drop guards only against a folder dropped onto itself; the parent
    chains and the cycle check that the drop lacks are defined here too. */
module FolderCard {
  import opened Wrappers
  import opened Text
  import opened Seqs
  import opened Rows
  import opened Store

  /** The seven folder icon images. */
  datatype Icon = Orange | Pink | Red | Blue | Green | BlueDark | Yellow

  /** The colours that have an icon of their own. */
  const IconMap: map<string, Icon> := map[
    "#ECA869" := Orange,
    "#E4B4E6" := Pink,
    "#E86C6C" := Red,
    "#7FABDB" := Blue,
    "#6BC497" := Green,
    "#4B8FBA" := BlueDark,
    "#E8C547" := Yellow]

  /** `getFolderIcon`: the colour's own icon, and the green one otherwise. */
  function FolderIcon(color: string): Icon {
    if color in IconMap then IconMap[color] else Green
  }

  /** Each icon other than green belongs to exactly one colour; green belongs
      to its own colour and to every colour without an entry. */
  lemma IconOfColour(color: string)
    ensures FolderIcon(color) == Orange <==> color == "#ECA869"
    ensures FolderIcon(color) == Pink <==> color == "#E4B4E6"
    ensures FolderIcon(color) == Red <==> color == "#E86C6C"
    ensures FolderIcon(color) == Blue <==> color == "#7FABDB"
    ensures FolderIcon(color) == BlueDark <==> color == "#4B8FBA"
    ensures FolderIcon(color) == Yellow <==> color == "#E8C547"
    ensures FolderIcon(color) == Green <==> color == "#6BC497" || color !in IconMap
  {
  }

  /** The text under the card: the count, then "bestand" for exactly one
      file and "bestanden" for any other count. */
  function CountLabel(fileCount: nat): (r: string)
    ensures var d := Decimal(fileCount);
      && |d| < |r| && r[..|d|] == d
      && (r[|d|..] == " bestand" <==> fileCount == 1)
      && (r[|d|..] == " bestanden" <==> fileCount != 1)
  {
    Decimal(fileCount) + " bestand" + (if fileCount != 1 then "en" else "")
  }

  /** `handleDelete`: once confirmed, the folder's row goes; `onUpdate` runs
      only after that succeeded. */
  method HandleDelete(db: Backend, folder: FolderRow, confirmed: bool, reply: Reply) returns (updated: bool)
    modifies db`folders
    ensures updated == (confirmed && reply.Ok?)
    ensures db.folders == if updated then Filter(old(db.folders), (f: FolderRow) => f.id != folder.id) else old(db.folders)
  {
    updated := false;
    if !confirmed {
      return;
    }
    updated := db.DeleteFolder(folder.id, reply);
  }

  /** `handleDrop` as written: a dragged file id (the empty string when
      absent) wins and the file moves into this folder; otherwise a dragged
      folder other than this one becomes its child. `onUpdate` runs unless the
      update failed, including when nothing was dropped. */
  method HandleDrop(db: Backend, folder: FolderRow, fileId: string, draggedFolderId: string, reply: Reply)
    returns (updated: bool)
    modifies db`files, db`folders
    ensures fileId != "" ==>
      && db.files == (if reply.Ok? then MoveFileRows(old(db.files), fileId, Some(folder.id)) else old(db.files))
      && db.folders == old(db.folders)
    ensures fileId == "" && draggedFolderId != "" && draggedFolderId != folder.id ==>
      && db.folders == (if reply.Ok? then MoveFolderRows(old(db.folders), draggedFolderId, Some(folder.id)) else old(db.folders))
      && db.files == old(db.files)
    ensures fileId == "" && (draggedFolderId == "" || draggedFolderId == folder.id) ==>
      db.files == old(db.files) && db.folders == old(db.folders)
    ensures updated <==> reply.Ok? || (fileId == "" && (draggedFolderId == "" || draggedFolderId == folder.id))
  {
    if fileId != "" {
      updated := db.MoveFile(fileId, Some(folder.id), reply);
    } else if draggedFolderId != "" && draggedFolderId != folder.id {
      updated := db.MoveFolder(draggedFolderId, Some(folder.id), reply);
    } else {
      updated := true;
    }
  }

  /** The parent of the first folder row with the id; `None` for a root
      folder and for an id without a row. */
  function ParentOf(folders: seq<FolderRow>, id: Id): (r: Option<Id>)
    ensures r.Some? ==> exists i :: 0 <= i < |folders| && folders[i].id == id && folders[i].parentFolderId == r
  {
    if |folders| == 0 then None
    else if folders[0].id == id then folders[0].parentFolderId
    else
      var r := ParentOf(folders[1..], id);
      assert r.Some? ==> exists i :: 0 <= i < |folders[1..]| && folders[1..][i].id == id && folders[1..][i].parentFolderId == r;
      r
  }

  predicate HasRow(folders: seq<FolderRow>, id: Id) {
    exists i :: 0 <= i < |folders| && folders[i].id == id
  }

  /** The chain of parents from `id` ends at the root within `n` steps. */
  predicate ReachesRoot(folders: seq<FolderRow>, id: Id, n: nat)
    decreases n
  {
    ParentOf(folders, id).None? || (n > 0 && ReachesRoot(folders, ParentOf(folders, id).value, n - 1))
  }

  /** Every parent chain ends at the root within `n` steps: the folders form
      a forest, and the tree view that walks them terminates. */
  ghost predicate Acyclic(folders: seq<FolderRow>, n: nat) {
    forall id :: ReachesRoot(folders, id, n)
  }

  /** `target` is `dragged` or lies below it, found within `n` steps up from
      `target`: putting `dragged` under `target` would close a cycle. */
  predicate WouldCycle(folders: seq<FolderRow>, dragged: Id, target: Id, n: nat)
    decreases n
  {
    target == dragged
    || (ParentOf(folders, target).Some? && n > 0 && WouldCycle(folders, dragged, ParentOf(folders, target).value, n - 1))
  }

  /** Moving `dragged` under `target` gives `dragged` that parent, when it has
      a row, and leaves every other folder's parent alone. */
  lemma {:induction false} ParentAfterMove(folders: seq<FolderRow>, dragged: Id, target: Id, id: Id)
    ensures ParentOf(MoveFolderRows(folders, dragged, Some(target)), id)
         == if id == dragged && HasRow(folders, dragged) then Some(target) else ParentOf(folders, id)
  {
    var moved := MoveFolderRows(folders, dragged, Some(target));
    if |folders| > 0 {
      assert moved[1..] == MoveFolderRows(folders[1..], dragged, Some(target));
      ParentAfterMove(folders[1..], dragged, target, id);
      if id == dragged && !HasRow(folders, dragged) {
        assert !HasRow(folders[1..], dragged) by {
          forall i | 0 <= i < |folders[1..]| ensures folders[1..][i].id != dragged {
            assert folders[1..][i] == folders[i + 1];
          }
        }
      }
      if id == dragged && HasRow(folders, dragged) && folders[0].id != dragged {
        var i :| 0 <= i < |folders| && folders[i].id == dragged;
        assert folders[1..][i - 1] == folders[i];
      }
    }
  }

  lemma {:induction false} ReachesRootMonotone(folders: seq<FolderRow>, id: Id, n: nat, m: nat)
    requires ReachesRoot(folders, id, n) && n <= m
    ensures ReachesRoot(folders, id, m)
    decreases n
  {
    if ParentOf(folders, id).Some? {
      ReachesRootMonotone(folders, ParentOf(folders, id).value, n - 1, m - 1);
    }
  }

  /** `moved` gives `dragged` the parent `target`, when it has a row, and
      every other folder the parent it had in `folders`. */
  ghost predicate MovedUnder(folders: seq<FolderRow>, moved: seq<FolderRow>, dragged: Id, target: Id) {
    forall id :: ParentOf(moved, id) == if id == dragged && HasRow(folders, dragged) then Some(target) else ParentOf(folders, id)
  }

  lemma MoveFolderRowsMovesUnder(folders: seq<FolderRow>, dragged: Id, target: Id)
    ensures MovedUnder(folders, MoveFolderRows(folders, dragged, Some(target)), dragged, target)
  {
    forall id {
      ParentAfterMove(folders, dragged, target, id);
    }
  }

  /** A chain that ends at the root without passing `dragged` is the same
      chain after the move. */
  lemma {:induction false} AvoidingChainSurvivesMove(folders: seq<FolderRow>, moved: seq<FolderRow>, dragged: Id, target: Id,
                                                     id: Id, n: nat)
    requires MovedUnder(folders, moved, dragged, target)
    requires ReachesRoot(folders, id, n) && !WouldCycle(folders, dragged, id, n)
    ensures ReachesRoot(moved, id, n)
    decreases n
  {
    if ParentOf(folders, id).Some? {
      AvoidingChainSurvivesMove(folders, moved, dragged, target, ParentOf(folders, id).value, n - 1);
    }
  }

  /** After a move that does not close a cycle, a chain of `n` steps becomes
      at most `n + m + 1` steps, where `m` bounds the chain above `target`. */
  lemma {:induction false} ChainAfterMove(folders: seq<FolderRow>, moved: seq<FolderRow>, dragged: Id, target: Id,
                                          m: nat, id: Id, n: nat)
    requires MovedUnder(folders, moved, dragged, target)
    requires ReachesRoot(folders, target, m) && !WouldCycle(folders, dragged, target, m)
    requires ReachesRoot(folders, id, n)
    ensures ReachesRoot(moved, id, n + m + 1)
    decreases n
  {
    if id == dragged && HasRow(folders, dragged) {
      AvoidingChainSurvivesMove(folders, moved, dragged, target, target, m);
      ReachesRootMonotone(moved, target, m, n + m);
    } else if ParentOf(folders, id).Some? {
      ChainAfterMove(folders, moved, dragged, target, m, ParentOf(folders, id).value, n - 1);
    }
  }

  /** The property the drop should keep: a move that the cycle check lets
      through leaves the folders a forest. */
  lemma CheckedMoveKeepsAcyclic(folders: seq<FolderRow>, dragged: Id, target: Id, n: nat)
    requires Acyclic(folders, n) && !WouldCycle(folders, dragged, target, n)
    ensures Acyclic(MoveFolderRows(folders, dragged, Some(target)), n + n + 1)
  {
    var moved := MoveFolderRows(folders, dragged, Some(target));
    MoveFolderRowsMovesUnder(folders, dragged, target);
    MovedStaysAcyclic(folders, moved, dragged, target, n);
  }

  lemma MovedStaysAcyclic(folders: seq<FolderRow>, moved: seq<FolderRow>, dragged: Id, target: Id, n: nat)
    requires MovedUnder(folders, moved, dragged, target)
    requires Acyclic(folders, n) && !WouldCycle(folders, dragged, target, n)
    ensures Acyclic(moved, n + n + 1)
  {
    var bound := n + n + 1;
    assert ReachesRoot(folders, target, n);
    forall id ensures ReachesRoot(moved, id, bound) {
      assert ReachesRoot(folders, id, n);
      ChainAfterMove(folders, moved, dragged, target, n, id, n);
    }
  }

  /** The cycle check: walk up from `target` to the root and look for
      `dragged` on the way. `depth` bounds the chains and is not used at
      run time. */
  method IsAncestorOrSelf(folders: seq<FolderRow>, dragged: Id, target: Id, ghost depth: nat) returns (found: bool)
    requires Acyclic(folders, depth)
    ensures found <==> WouldCycle(folders, dragged, target, depth)
  {
    var current := target;
    ghost var k := depth;
    while current != dragged && ParentOf(folders, current).Some?
      invariant ReachesRoot(folders, current, k)
      invariant WouldCycle(folders, dragged, target, depth) <==> WouldCycle(folders, dragged, current, k)
      decreases k
    {
      current := ParentOf(folders, current).value;
      k := k - 1;
    }
    found := current == dragged;
  }

  /** The drop with the cycle check added: a folder is moved only when the
      card's folder is neither the dragged folder nor below it, so the
      folders stay a forest. Files move as before. */
  method HandleDropChecked(db: Backend, folder: FolderRow, fileId: string, draggedFolderId: string, reply: Reply,
                           ghost depth: nat)
    returns (updated: bool)
    requires Acyclic(db.folders, depth)
    modifies db`files, db`folders
    ensures fileId != "" ==>
      && db.files == (if reply.Ok? then MoveFileRows(old(db.files), fileId, Some(folder.id)) else old(db.files))
      && db.folders == old(db.folders)
    ensures var moves := fileId == "" && draggedFolderId != ""
                         && !WouldCycle(old(db.folders), draggedFolderId, folder.id, depth);
      && (moves ==> db.folders == (if reply.Ok? then MoveFolderRows(old(db.folders), draggedFolderId, Some(folder.id)) else old(db.folders)))
      && (fileId == "" ==> db.files == old(db.files))
      && (fileId == "" && !moves ==> db.folders == old(db.folders))
      && (updated <==> reply.Ok? || (fileId == "" && !moves))
    ensures Acyclic(db.folders, depth + depth + 1)
  {
    if fileId != "" {
      updated := db.MoveFile(fileId, Some(folder.id), reply);
      ReachesRootMonotoneAll(db.folders, depth, depth + depth + 1);
      return;
    }
    var cycle := false;
    if draggedFolderId != "" {
      cycle := IsAncestorOrSelf(db.folders, draggedFolderId, folder.id, depth);
    }
    if draggedFolderId != "" && !cycle {
      ghost var before := db.folders;
      updated := db.MoveFolder(draggedFolderId, Some(folder.id), reply);
      if updated {
        CheckedMoveKeepsAcyclic(before, draggedFolderId, folder.id, depth);
      } else {
        ReachesRootMonotoneAll(db.folders, depth, depth + depth + 1);
      }
    } else {
      updated := true;
      ReachesRootMonotoneAll(db.folders, depth, depth + depth + 1);
    }
  }

  lemma ReachesRootMonotoneAll(folders: seq<FolderRow>, n: nat, m: nat)
    requires Acyclic(folders, n) && n <= m
    ensures Acyclic(folders, m)
  {
    forall id ensures ReachesRoot(folders, id, m) {
      ReachesRootMonotone(folders, id, n, m);
    }
  }

  /** The drop as written can close a cycle: with folder "b" inside root
      folder "a", dropping "a" onto the card of "b" passes the self-drop
      guard and leaves "a" and "b" each other's parent, so neither chain
      reaches the root. */
  lemma DropCanCreateCycle(folders: seq<FolderRow>, a: FolderRow, b: FolderRow)
    requires a.id == "a" && a.parentFolderId == None
    requires b.id == "b" && b.parentFolderId == Some("a")
    requires folders == [a, b]
    ensures Acyclic(folders, 1)
    ensures a.id != b.id
    ensures forall n: nat :: !ReachesRoot(MoveFolderRows(folders, a.id, Some(b.id)), a.id, n)
    ensures WouldCycle(folders, a.id, b.id, 1)
  {
    forall id ensures ReachesRoot(folders, id, 1) {
      if id != "a" && id != "b" {
        assert ParentOf(folders[1..], id) == None;
      }
    }
    var moved := MoveFolderRows(folders, a.id, Some(b.id));
    assert moved[0].parentFolderId == Some("b") && moved[0].id == "a";
    assert moved[1].parentFolderId == Some("a") && moved[1].id == "b";
    forall n: nat ensures !ReachesRoot(moved, "a", n) {
      NoRootInTwoCycle(moved, n);
    }
  }

  lemma {:induction false} NoRootInTwoCycle(moved: seq<FolderRow>, n: nat)
    requires |moved| == 2
    requires moved[0].id == "a" && moved[0].parentFolderId == Some("b")
    requires moved[1].id == "b" && moved[1].parentFolderId == Some("a")
    ensures !ReachesRoot(moved, "a", n)
    decreases n
  {
    assert ParentOf(moved, "a") == Some("b");
    assert ParentOf(moved[1..], "b") == Some("a");
    if n >= 2 {
      NoRootInTwoCycle(moved, n - 2);
    }
  }
}
