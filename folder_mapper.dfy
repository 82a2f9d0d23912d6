/** ProjectModel::JsonToFolder and ProjectModel::FolderToJson. */
module FolderMapper {
  import Uuids
  import opened AssetRefs
  import opened Json
  import opened Assets

  /** JsonToFolder: sets the name (empty when absent) and, only when the
      document has a "parent" key, the parent; the ref is left as it was. */
  function JsonToFolder(obj: seq<Member>, folder: Folder): (r: Folder)
    ensures r.ref == folder.ref
    ensures r.name == ToStr(Get(obj, "name"))
    ensures !Contains(obj, "parent") ==> r.parent == folder.parent
    ensures Contains(obj, "parent") ==> r.parent.kind == FolderKind
  {
    var named := folder.(name := ToStr(Get(obj, "name")));
    if Contains(obj, "parent") then named.(parent := ParentRef(obj)) else named
  }

  /** FolderToJson: writes the given name, and the parent's uuid only when the parent is not null. */
  function FolderToJson(name: string, folder: Folder, obj: seq<Member>): (r: seq<Member>)
    ensures Get(r, "name") == Str(name)
    ensures !IsNull(folder.parent) ==> Get(r, "parent") == Str(Uuids.ToString(folder.parent.uuid))
    ensures IsNull(folder.parent) ==> Contains(r, "parent") == Contains(obj, "parent")
  {
    var named := Insert(obj, "name", Str(name));
    GetInsertSame(obj, "name", Str(name));
    ContainsInsertOther(obj, "name", Str(name), "parent");
    if IsNull(folder.parent) then
      named
    else
      GetInsertOther(named, "parent", Str(Uuids.ToString(folder.parent.uuid)), "name");
      GetInsertSame(named, "parent", Str(Uuids.ToString(folder.parent.uuid)));
      Insert(named, "parent", Str(Uuids.ToString(folder.parent.uuid)))
  }

  /** A folder written into an empty object and read back into a fresh folder
      gets the same name and an equal parent (a null parent is omitted and
      comes back null), provided its parent is null or a Folder ref. */
  lemma FolderRoundTrip(name: string, folder: Folder, ref: AssetRef)
    requires IsNull(folder.parent) || folder.parent.kind == FolderKind
    ensures JsonToFolder(FolderToJson(name, folder, []), NewFolder(ref)).ref == ref
    ensures JsonToFolder(FolderToJson(name, folder, []), NewFolder(ref)).name == name
    ensures Equal(JsonToFolder(FolderToJson(name, folder, []), NewFolder(ref)).parent, folder.parent)
  {
    var doc := FolderToJson(name, folder, []);
    if !IsNull(folder.parent) {
      Uuids.FromToString(folder.parent.uuid);
    }
  }
}
