/** The folder actions: create a folder for the signed-in user, and
    delete or rename one only when the caller owns it. The signed-in user
    id is an input; "Unauthorized" is the one error these actions throw. */
module FolderActions {
  import opened Wrappers
  import opened Seqs
  import opened Schema

  const UNAUTHORIZED := "Unauthorized"

  /** The guard `deleteFolder` and `updateFolder` share: a signed-in
      caller, and a folder with that id that the caller owns. */
  function OwnedFolder(folders: seq<Folder>, caller: Option<string>, folderId: string): (r: Result<Folder, string>)
    ensures r.Success? ==> r.value in folders && r.value.id == folderId && Some(r.value.userId) == caller
    ensures r.Failure? ==> r.error == UNAUTHORIZED
  {
    if !Truthy(caller) then Failure(UNAUTHORIZED)
    else match FindById(folders, FolderId, folderId)
      case None => Failure(UNAUTHORIZED)
      case Some(f) => if f.userId != caller.value then Failure(UNAUTHORIZED) else Success(f)
  }

  /** With unique ids the guard passes exactly for the folder's owner. */
  lemma OwnedFolderExactly(folders: seq<Folder>, caller: Option<string>, folderId: string)
    requires IdsValid(folders, FolderId)
    ensures OwnedFolder(folders, caller, folderId).Success? <==>
      Truthy(caller) && exists f :: f in folders && f.id == folderId && f.userId == caller.value
  {
    if Truthy(caller) && exists f :: f in folders && f.id == folderId && f.userId == caller.value {
      var f :| f in folders && f.id == folderId && f.userId == caller.value;
      FindByIdMember(folders, FolderId, f);
    }
  }

  /** `createFolder(name, className?, subjectName?)`. */
  method CreateFolder(db: Db, caller: Option<string>, name: string, className: Option<string>,
                      subjectName: Option<string>, id: string)
    returns (r: Result<Folder, string>)
    requires db.Valid() && Fresh(db.folders, FolderId, id)
    modifies db`folders
    ensures db.Valid()
    ensures !Truthy(caller) ==> r == Failure(UNAUTHORIZED) && unchanged(db)
    ensures Truthy(caller) ==>
      r == Success(Folder(id, name, caller.value, className, subjectName)) &&
      db.folders == old(db.folders) + [r.value]
  {
    if !Truthy(caller) {
      return Failure(UNAUTHORIZED);
    }
    var folder := Folder(id, name, caller.value, className, subjectName);
    IdsValidAppend(db.folders, FolderId, folder);
    db.folders := db.folders + [folder];
    r := Success(folder);
  }

  function WithoutFolder(folders: seq<Folder>, folderId: string): seq<Folder> {
    Filter(folders, (f: Folder) => f.id != folderId)
  }

  /** `deleteFolder(folderId)`. */
  method DeleteFolder(db: Db, caller: Option<string>, folderId: string) returns (r: Result<(), string>)
    requires db.Valid()
    modifies db`folders
    ensures db.Valid()
    ensures OwnedFolder(old(db.folders), caller, folderId).Failure? ==> r == Failure(UNAUTHORIZED) && unchanged(db)
    ensures OwnedFolder(old(db.folders), caller, folderId).Success? ==>
      r == Success(()) && db.folders == WithoutFolder(old(db.folders), folderId)
  {
    var guard := OwnedFolder(db.folders, caller, folderId);
    if guard.Failure? {
      return Failure(guard.error);
    }
    IdsValidFilter(db.folders, FolderId, (f: Folder) => f.id != folderId);
    db.folders := WithoutFolder(db.folders, folderId);
    r := Success(());
  }

  /** A delete removes exactly that folder, so deleting it again throws. */
  lemma DeleteFolderTwiceFails(folders: seq<Folder>, caller: Option<string>, folderId: string)
    requires OwnedFolder(folders, caller, folderId).Success?
    ensures forall f :: f in WithoutFolder(folders, folderId) <==> f in folders && f.id != folderId
    ensures |WithoutFolder(folders, folderId)| < |folders|
    ensures OwnedFolder(WithoutFolder(folders, folderId), caller, folderId) == Failure(UNAUTHORIZED)
  {
    var f := OwnedFolder(folders, caller, folderId).value;
    FilterShrinks(folders, (g: Folder) => g.id != folderId, f);
  }

  function Renamed(folders: seq<Folder>, folderId: string, name: string): seq<Folder> {
    UpdateById(folders, FolderId, folderId, (f: Folder) => f.(name := name))
  }

  /** `updateFolder(folderId, name)`. */
  method UpdateFolder(db: Db, caller: Option<string>, folderId: string, name: string) returns (r: Result<(), string>)
    requires db.Valid()
    modifies db`folders
    ensures db.Valid()
    ensures OwnedFolder(old(db.folders), caller, folderId).Failure? ==> r == Failure(UNAUTHORIZED) && unchanged(db)
    ensures OwnedFolder(old(db.folders), caller, folderId).Success? ==>
      r == Success(()) && db.folders == Renamed(old(db.folders), folderId, name)
  {
    var guard := OwnedFolder(db.folders, caller, folderId);
    if guard.Failure? {
      return Failure(guard.error);
    }
    IdsValidUpdate(db.folders, FolderId, folderId, (f: Folder) => f.(name := name));
    db.folders := Renamed(db.folders, folderId, name);
    r := Success(());
  }

  /** A rename changes only the name of that one folder; owner and labels stay. */
  lemma RenamedEffect(folders: seq<Folder>, folderId: string, name: string)
    ensures var r := Renamed(folders, folderId, name);
      |r| == |folders| &&
      forall i :: 0 <= i < |folders| ==>
        r[i].id == folders[i].id && r[i].userId == folders[i].userId &&
        r[i].className == folders[i].className && r[i].subjectName == folders[i].subjectName &&
        r[i].name == (if folders[i].id == folderId then name else folders[i].name)
  {
  }

  /** The owner can rename a folder as often as they like; the guard still
      passes afterwards. */
  lemma RenameKeepsOwnership(folders: seq<Folder>, caller: Option<string>, folderId: string, name: string)
    requires OwnedFolder(folders, caller, folderId).Success?
    ensures OwnedFolder(Renamed(folders, folderId, name), caller, folderId).Success?
  {
    FindByIdAfterUpdate(folders, folderId, name);
  }

  lemma {:induction false} FindByIdAfterUpdate(folders: seq<Folder>, folderId: string, name: string)
    ensures FindById(Renamed(folders, folderId, name), FolderId, folderId) ==
      match FindById(folders, FolderId, folderId)
      case None => None
      case Some(f) => Some(f.(name := name))
  {
    if folders != [] {
      assert Renamed(folders, folderId, name)[1..] == Renamed(folders[1..], folderId, name);
      FindByIdAfterUpdate(folders[1..], folderId, name);
    }
  }
}
