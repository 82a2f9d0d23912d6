/** ProjectModel: the in-memory store of a project's folders, parts and
    composites, its lookups, and load, which checks an archive's data.json
    through a chain of gates and then enters every asset it describes. */
module Project {
  import opened Wrappers
  import opened AssetRefs
  import opened Json
  import opened Assets
  import opened Archives
  import Prefs
  import Uuids
  import FolderMapper
  import PartMapper
  import CompositeMapper

  /** PROJECT_SAVE_FILE_VERSION: the only data.json version load accepts. */
  const PROJECT_SAVE_FILE_VERSION: Int32 := 1

  const PARSE_ERROR_PREFIX := "Internal data.json parse error: "

  /** The reasons load gives for a failure; a parse error carries the
      parser's own message after a fixed prefix. */
  predicate IsReason(s: string) {
    s == "Cannot open file" || s == "Cannot read project file" || s == "Internal data.json is missing"
    || s == "Internal data.json is empty" || s == "Internal data.json is not a valid json object"
    || s == "Internal data.json has no version field" || s == "Internal data.json has an invalid version"
    || (|PARSE_ERROR_PREFIX| <= |s| && s[..|PARSE_ERROR_PREFIX|] == PARSE_ERROR_PREFIX)
  }

  /** The gates of load, in order: the top-level object of data.json when
      every gate passes, the reason of the first gate that fails otherwise. */
  function DataObject(archive: Archive, parse: seq<bv8> -> Parsed): (r: Result<seq<Member>, string>)
    ensures r.Ok? <==> archive.Tar? && "data.json" in archive.entries
                         && TextLength(archive.entries["data.json"]) > 0
                         && parse(TextOf(archive.entries["data.json"])).Document?
                         && parse(TextOf(archive.entries["data.json"])).root.Obj?
                         && Contains(parse(TextOf(archive.entries["data.json"])).root.members, "version")
                         && ToInt(Get(parse(TextOf(archive.entries["data.json"])).root.members, "version"), 0) == PROJECT_SAVE_FILE_VERSION
    ensures r.Ok? ==> parse(TextOf(archive.entries["data.json"])) == Document(Obj(r.value))
    ensures r.Ok? ==> Get(r.value, "version") == Number(1 as real)
    ensures r.Err? ==> IsReason(r.error)
  {
    match archive
    case Unopenable => Err("Cannot open file")
    case Unreadable => Err("Cannot read project file")
    case Tar(entries) =>
      if "data.json" !in entries then Err("Internal data.json is missing")
      else if TextLength(entries["data.json"]) == 0 then Err("Internal data.json is empty")
      else
        match parse(TextOf(entries["data.json"]))
        case ParseError(message) => Err(PARSE_ERROR_PREFIX + message)
        case Document(root) =>
          if !root.Obj? then Err("Internal data.json is not a valid json object")
          else if !Contains(root.members, "version") then Err("Internal data.json has no version field")
          else if ToInt(Get(root.members, "version"), 0) != PROJECT_SAVE_FILE_VERSION then
            Err("Internal data.json has an invalid version")
          else Ok(root.members)
  }

  /** The gate part of load, with its scan loop. */
  method OpenData(archive: Archive, parse: seq<bv8> -> Parsed) returns (r: Result<seq<Member>, string>)
    ensures r == DataObject(archive, parse)
  {
    if archive.Unopenable? {
      return Err("Cannot open file");
    }
    if archive.Unreadable? {
      return Err("Cannot read project file");
    }
    var fileMap := archive.entries;
    if "data.json" !in fileMap {
      return Err("Internal data.json is missing");
    }
    var dataRec := fileMap["data.json"];
    var dataLength := ScanLength(dataRec);
    if dataLength == 0 {
      return Err("Internal data.json is empty");
    }
    var dataDoc := parse(dataRec[..dataLength]);
    if dataDoc.ParseError? {
      return Err(PARSE_ERROR_PREFIX + dataDoc.message);
    }
    if !dataDoc.root.Obj? {
      return Err("Internal data.json is not a valid json object");
    }
    var dataObj := dataDoc.root.members;
    if !Contains(dataObj, "version") {
      return Err("Internal data.json has no version field");
    }
    if ToInt(Get(dataObj, "version"), 0) != PROJECT_SAVE_FILE_VERSION {
      return Err("Internal data.json has an invalid version");
    }
    return Ok(dataObj);
  }

  /** A data.json with no zero byte at all fails as empty, as does one that starts with a zero byte. */
  lemma EmptyWithoutTerminator(entries: map<string, seq<bv8>>, parse: seq<bv8> -> Parsed)
    requires "data.json" in entries
    requires (forall i :: 0 <= i < |entries["data.json"]| ==> entries["data.json"][i] != 0)
             || (|entries["data.json"]| > 0 && entries["data.json"][0] == 0)
    ensures DataObject(Tar(entries), parse) == Err("Internal data.json is empty")
  {
  }

  /** A version that is not a whole number (a string, a fraction, a boolean)
      reads as 0 and so fails as an invalid version. */
  lemma NonNumericVersionInvalid(entries: map<string, seq<bv8>>, parse: seq<bv8> -> Parsed, obj: seq<Member>)
    requires "data.json" in entries && TextLength(entries["data.json"]) > 0
    requires parse(TextOf(entries["data.json"])) == Document(Obj(obj))
    requires Contains(obj, "version")
    requires !Get(obj, "version").Number? || !IsWhole(Get(obj, "version").n)
    ensures DataObject(Tar(entries), parse) == Err("Internal data.json has an invalid version")
  {
  }

  // ---- entering the sections of data.json

  /** One section of data.json ("folders", "parts" or "comps"): an object
      from uuid strings to asset documents (none when it is not an object). */
  function Section(obj: seq<Member>, key: string): seq<Member> {
    ToObject(Get(obj, key))
  }

  /** The ref load gives the asset under a section key: the key read as a uuid, with the section's kind. */
  function KeyRef(key: string, kind: AssetType): AssetRef {
    AssetRef(Uuids.FromString(key), kind)
  }

  function FolderKey(member: Member): AssetRef { KeyRef(member.key, FolderKind) }
  function PartKey(member: Member): AssetRef { KeyRef(member.key, PartKind) }
  function CompositeKey(member: Member): AssetRef { KeyRef(member.key, CompositeKind) }

  /** What load has at hand while it maps documents: the archive's images and
      the number of pivot slots a mode gets. Only parts use them. */
  datatype Resources = Resources(images: map<string, Image>, maxPivots: nat)

  /** A folder as load makes it from a member of "folders". */
  function LoadFolder(res: Resources, member: Member): (f: Folder)
    ensures f.ref == FolderKey(member)
  {
    FolderMapper.JsonToFolder(ToObject(member.value), NewFolder(FolderKey(member)))
  }

  /** A part as load makes it from a member of "parts", with the archive's images. */
  function LoadPart(res: Resources, member: Member): (p: Part)
    requires PartMapper.PartResolvable(ToObject(member.value), res.images, res.maxPivots)
    ensures p.ref == PartKey(member)
  {
    PartMapper.PartOf(ToObject(member.value), res.images, NewPart(PartKey(member)), res.maxPivots)
  }

  /** A composite as load makes it from a member of "comps". */
  function LoadComposite(res: Resources, member: Member): (c: Composite)
    ensures c.ref == CompositeKey(member)
  {
    CompositeMapper.CompositeOf(ToObject(member.value), NewComposite(CompositeKey(member)))
  }

  /** Every member of a section can be made into an asset. */
  ghost predicate Makes<C, M, T>(res: C, section: seq<M>, make: (C, M) --> T) {
    forall i :: 0 <= i < |section| ==> make.requires(res, section[i])
  }

  /** The first n members of a section entered into a collection, in order:
      each asset is stored under its ref, replacing an asset with an equal ref. */
  function Enter<C, M, T>(m: map<AssetRef, T>, res: C, section: seq<M>, key: M -> AssetRef, make: (C, M) --> T, n: nat): (r: map<AssetRef, T>)
    requires n <= |section| && Makes(res, section, make)
    ensures m.Keys <= r.Keys
  {
    if n == 0 then m
    else Enter(m, res, section, key, make, n - 1)[Canon(key(section[n - 1])) := make(res, section[n - 1])]
  }

  /** Entering one more member is inserting its asset under its ref. */
  lemma EnterStep<C, M, T>(m: map<AssetRef, T>, res: C, section: seq<M>, key: M -> AssetRef, make: (C, M) --> T, n: nat,
                           entered: map<AssetRef, T>, ref: AssetRef, asset: T)
    requires n < |section| && Makes(res, section, make)
    requires entered == Enter(m, res, section, key, make, n)
    requires ref == key(section[n]) && asset == make(res, section[n])
    ensures entered[Canon(ref) := asset] == Enter(m, res, section, key, make, n + 1)
  {
  }

  /** The collection after entering holds what it held before and one entry
      for every member of the section, and nothing else. */
  lemma {:induction false} EnterKeys<C, M, T>(m: map<AssetRef, T>, res: C, section: seq<M>, key: M -> AssetRef, make: (C, M) --> T, n: nat)
    requires n <= |section| && Makes(res, section, make)
    ensures Enter(m, res, section, key, make, n).Keys == m.Keys + set i | 0 <= i < n :: Canon(key(section[i]))
  {
    if n > 0 {
      EnterKeys(m, res, section, key, make, n - 1);
      assert (set i | 0 <= i < n :: Canon(key(section[i])))
          == (set i | 0 <= i < n - 1 :: Canon(key(section[i]))) + {Canon(key(section[n - 1]))};
    }
  }

  /** An entry whose ref no member of the section names stays as it was. */
  lemma {:induction false} EnterKeepsOthers<C, M, T>(m: map<AssetRef, T>, res: C, section: seq<M>, key: M -> AssetRef, make: (C, M) --> T, n: nat, k: AssetRef)
    requires n <= |section| && Makes(res, section, make)
    requires k in m
    requires forall i :: 0 <= i < n ==> Canon(key(section[i])) != k
    ensures k in Enter(m, res, section, key, make, n) && Enter(m, res, section, key, make, n)[k] == m[k]
  {
    if n > 0 {
      EnterKeepsOthers(m, res, section, key, make, n - 1, k);
    }
  }

  /** The asset stored under a member's ref is the one made from that member,
      when no later member names an equal ref. */
  lemma {:induction false} EnterLast<C, M, T>(m: map<AssetRef, T>, res: C, section: seq<M>, key: M -> AssetRef, make: (C, M) --> T, n: nat, i: nat)
    requires n <= |section| && Makes(res, section, make)
    requires i < n
    requires forall j :: i < j < n ==> Canon(key(section[j])) != Canon(key(section[i]))
    ensures Canon(key(section[i])) in Enter(m, res, section, key, make, n)
    ensures Enter(m, res, section, key, make, n)[Canon(key(section[i]))] == make(res, section[i])
  {
    if i < n - 1 {
      EnterLast(m, res, section, key, make, n - 1, i);
    }
  }

  /** One iteration of the "parts" loop of load: the part made from the
      member's document, inserted under the member's ref. */
  method EnterPart(res: Resources, section: seq<Member>, start: map<AssetRef, Part>, i: nat, entered: map<AssetRef, Part>)
    returns (next: map<AssetRef, Part>)
    requires i < |section| && Makes(res, section, LoadPart)
    requires entered == Enter(start, res, section, PartKey, LoadPart, i)
    ensures next == Enter(start, res, section, PartKey, LoadPart, i + 1)
  {
    var ref := KeyRef(section[i].key, PartKind);
    var part := PartMapper.JsonToPart(ToObject(section[i].value), res.images, NewPart(ref), res.maxPivots);
    EnterStep(start, res, section, PartKey, LoadPart, i, entered, ref, part);
    next := entered[Canon(ref) := part];
  }

  /** One iteration of the "comps" loop of load: the composite made from the
      member's document, inserted under the member's ref. */
  method EnterComposite(res: Resources, section: seq<Member>, start: map<AssetRef, Composite>, i: nat, entered: map<AssetRef, Composite>)
    returns (next: map<AssetRef, Composite>)
    requires i < |section| && Makes(res, section, LoadComposite)
    requires entered == Enter(start, res, section, CompositeKey, LoadComposite, i)
    ensures next == Enter(start, res, section, CompositeKey, LoadComposite, i + 1)
  {
    var ref := KeyRef(section[i].key, CompositeKind);
    var composite := CompositeMapper.JsonToComposite(ToObject(section[i].value), NewComposite(ref));
    EnterStep(start, res, section, CompositeKey, LoadComposite, i, entered, ref, composite);
    next := entered[Canon(ref) := composite];
  }

  // ---- the store

  function FolderRef(f: Folder): AssetRef { f.ref }
  function PartRef(p: Part): AssetRef { p.ref }
  function CompositeRef(c: Composite): AssetRef { c.ref }

  /** A collection keyed the way a hash keyed by AssetRef keys it: each entry
      under its asset's representative ref, and every asset of one kind. */
  predicate Holds<T>(m: map<AssetRef, T>, refOf: T -> AssetRef, kind: AssetType) {
    forall k :: k in m ==> k == Canon(refOf(m[k])) && refOf(m[k]).kind == kind
  }

  /** Entering assets that carry their member's ref, of the collection's kind, keeps a collection keyed. */
  lemma {:induction false} EnterHolds<C, M, T>(m: map<AssetRef, T>, res: C, section: seq<M>, key: M -> AssetRef, make: (C, M) --> T,
                                               refOf: T -> AssetRef, kind: AssetType, n: nat)
    requires n <= |section| && Makes(res, section, make)
    requires Holds(m, refOf, kind)
    requires forall i :: 0 <= i < |section| ==> refOf(make(res, section[i])) == key(section[i]) && key(section[i]).kind == kind
    ensures Holds(Enter(m, res, section, key, make, n), refOf, kind)
  {
    if n > 0 {
      EnterHolds(m, res, section, key, make, refOf, kind, n - 1);
    }
  }

  /** QHash::value on a collection keyed by AssetRef: the asset stored under
      a ref equal to the given one, if there is one. */
  function Lookup<T(==)>(m: map<AssetRef, T>, refOf: T -> AssetRef, kind: AssetType, ref: AssetRef): (r: Option<T>)
    requires Holds(m, refOf, kind)
    ensures r.Some? ==> r.value in m.Values && Equal(refOf(r.value), ref)
    ensures r.None? ==> forall k :: k in m ==> !Equal(refOf(m[k]), ref)
  {
    if Canon(ref) in m then Some(m[Canon(ref)]) else None
  }

  /** The loop of findXByName: the first asset met whose name is the given
      one, visiting the collection in an unspecified order. */
  method FindByName<T(==)>(m: map<AssetRef, T>, nameOf: T -> string, name: string) returns (r: Option<T>)
    ensures r.Some? ==> r.value in m.Values && nameOf(r.value) == name
    ensures r.None? ==> forall k :: k in m ==> nameOf(m[k]) != name
  {
    var pending := m.Keys;
    while pending != {}
      invariant pending <= m.Keys
      invariant forall k :: k in m && k !in pending ==> nameOf(m[k]) != name
      decreases |pending|
    {
      var k :| k in pending;
      if nameOf(m[k]) == name {
        return Some(m[k]);
      }
      pending := pending - {k};
    }
    return None;
  }

  function FolderName(f: Folder): string { f.name }
  function PartName(p: Part): string { p.name }
  function CompositeName(c: Composite): string { c.name }

  /** The resources load gathers from an archive. */
  function ResourcesOf(archive: Archive, decode: seq<bv8> -> Image, maxPivots: nat): Resources
    requires archive.Tar?
  {
    Resources(PngImages(archive.entries, decode), maxPivots)
  }

  /** What load demands of an archive that passes the gates: every part
      document can be read against the archive's images (JsonToPart asserts it). */
  ghost predicate LoadResolvable(archive: Archive, parse: seq<bv8> -> Parsed, decode: seq<bv8> -> Image, maxPivots: nat) {
    DataObject(archive, parse).Ok? ==>
      Makes(ResourcesOf(archive, decode, maxPivots), Section(DataObject(archive, parse).value, "parts"), LoadPart)
  }

  class ProjectModel {
    var folders: map<AssetRef, Folder>
    var parts: map<AssetRef, Part>
    var composites: map<AssetRef, Composite>
    var fileName: string

    /** Each collection is keyed by its assets' refs and holds assets of its own kind. */
    predicate Valid()
      reads this
    {
      Holds(folders, FolderRef, FolderKind) && Holds(parts, PartRef, PartKind) && Holds(composites, CompositeRef, CompositeKind)
    }

    /** A new model is empty. */
    constructor ()
      ensures Valid()
      ensures folders == map[] && parts == map[] && composites == map[] && fileName == ""
    {
      folders := map[];
      parts := map[];
      composites := map[];
      fileName := "";
    }

    /** getFolder: the folder whose ref equals the given one, if any. */
    function GetFolder(ref: AssetRef): (r: Option<Folder>)
      reads this
      requires Valid()
      ensures r.Some? ==> r.value in folders.Values && Equal(r.value.ref, ref) && r.value.ref.kind == FolderKind
      ensures r.None? ==> forall k :: k in folders ==> !Equal(folders[k].ref, ref)
    {
      Lookup(folders, FolderRef, FolderKind, ref)
    }

    /** getPart: the part whose ref equals the given one, if any. */
    function GetPart(ref: AssetRef): (r: Option<Part>)
      reads this
      requires Valid()
      ensures r.Some? ==> r.value in parts.Values && Equal(r.value.ref, ref) && r.value.ref.kind == PartKind
      ensures r.None? ==> forall k :: k in parts ==> !Equal(parts[k].ref, ref)
    {
      Lookup(parts, PartRef, PartKind, ref)
    }

    /** getComposite: the composite whose ref equals the given one, if any. */
    function GetComposite(ref: AssetRef): (r: Option<Composite>)
      reads this
      requires Valid()
      ensures r.Some? ==> r.value in composites.Values && Equal(r.value.ref, ref) && r.value.ref.kind == CompositeKind
      ensures r.None? ==> forall k :: k in composites ==> !Equal(composites[k].ref, ref)
    {
      Lookup(composites, CompositeRef, CompositeKind, ref)
    }

    /** hasFolder: some stored folder's ref equals the given one. */
    function HasFolder(ref: AssetRef): (r: bool)
      reads this
      requires Valid()
      ensures r <==> exists k :: k in folders && Equal(folders[k].ref, ref)
    {
      GetFolder(ref).Some?
    }

    /** hasPart: some stored part's ref equals the given one. */
    function HasPart(ref: AssetRef): (r: bool)
      reads this
      requires Valid()
      ensures r <==> exists k :: k in parts && Equal(parts[k].ref, ref)
    {
      GetPart(ref).Some?
    }

    /** hasComposite: some stored composite's ref equals the given one. */
    function HasComposite(ref: AssetRef): (r: bool)
      reads this
      requires Valid()
      ensures r <==> exists k :: k in composites && Equal(composites[k].ref, ref)
    {
      GetComposite(ref).Some?
    }

    /** getAsset: looks in the collection of the ref's own kind only. */
    function GetAsset(ref: AssetRef): (r: Option<Asset>)
      reads this
      requires Valid()
      ensures r.Some? ==> Equal(r.value.Ref(), ref) && r.value.Ref().kind == ref.kind
      ensures ref.kind == PartKind ==> (r.Some? <==> HasPart(ref))
      ensures ref.kind == CompositeKind ==> (r.Some? <==> HasComposite(ref))
      ensures ref.kind == FolderKind ==> (r.Some? <==> HasFolder(ref))
    {
      match ref.kind
      case PartKind => (match GetPart(ref) case Some(p) => Some(PartAsset(p)) case None => None)
      case CompositeKind => (match GetComposite(ref) case Some(c) => Some(CompositeAsset(c)) case None => None)
      case FolderKind => (match GetFolder(ref) case Some(f) => Some(FolderAsset(f)) case None => None)
    }

    /** hasAsset: for a ref that is not null, whether any collection holds an
      asset equal to it (a null ref is looked up under its own kind only). */
    function HasAsset(ref: AssetRef): (r: bool)
      reads this
      requires Valid()
      ensures r <==> (ref.kind == PartKind && HasPart(ref)) || (ref.kind == CompositeKind && HasComposite(ref))
                     || (ref.kind == FolderKind && HasFolder(ref))
      ensures !IsNull(ref) ==> (r <==> HasPart(ref) || HasComposite(ref) || HasFolder(ref))
    {
      GetAsset(ref).Some?
    }

    /** findFolderByName */
    method FindFolderByName(name: string) returns (r: Option<Folder>)
      ensures r.Some? ==> r.value in folders.Values && r.value.name == name
      ensures r.None? ==> forall k :: k in folders ==> folders[k].name != name
    {
      r := FindByName(folders, FolderName, name);
    }

    /** findPartByName */
    method FindPartByName(name: string) returns (r: Option<Part>)
      ensures r.Some? ==> r.value in parts.Values && r.value.name == name
      ensures r.None? ==> forall k :: k in parts ==> parts[k].name != name
    {
      r := FindByName(parts, PartName, name);
    }

    /** findCompositeByName */
    method FindCompositeByName(name: string) returns (r: Option<Composite>)
      ensures r.Some? ==> r.value in composites.Values && r.value.name == name
      ensures r.None? ==> forall k :: k in composites ==> composites[k].name != name
    {
      r := FindByName(composites, CompositeName, name);
    }

    /** clear: empties the three collections and the file name. */
    method Clear()
      modifies this
      ensures Valid()
      ensures folders == map[] && parts == map[] && composites == map[] && fileName == ""
    {
      parts := map[];
      composites := map[];
      folders := map[];
      fileName := "";
    }

    /** save: not implemented; always fails and changes nothing. */
    method Save(path: string) returns (ok: bool)
      ensures !ok
    {
      ok := false;
    }

    /** The "folders" loop of load. */
    method EnterFolders(res: Resources, section: seq<Member>)
      modifies this`folders
      ensures folders == Enter(old(folders), res, section, FolderKey, LoadFolder, |section|)
    {
      var start := folders;
      var entered := start;
      assert Makes(res, section, LoadFolder);
      var i := 0;
      while i < |section|
        invariant 0 <= i <= |section|
        invariant entered == Enter(start, res, section, FolderKey, LoadFolder, i)
        modifies {}
      {
        var ref := KeyRef(section[i].key, FolderKind);
        var folder := FolderMapper.JsonToFolder(ToObject(section[i].value), NewFolder(ref));
        EnterStep(start, res, section, FolderKey, LoadFolder, i, entered, ref, folder);
        entered := entered[Canon(ref) := folder];
        i := i + 1;
      }
      folders := entered;
    }

    /** The "parts" loop of load. */
    method EnterParts(res: Resources, section: seq<Member>)
      requires Makes(res, section, LoadPart)
      modifies this`parts
      ensures parts == Enter(old(parts), res, section, PartKey, LoadPart, |section|)
    {
      var start := parts;
      var entered := start;
      assert Makes(res, section, LoadPart);
      var i := 0;
      while i < |section|
        invariant 0 <= i <= |section|
        invariant entered == Enter(start, res, section, PartKey, LoadPart, i)
        modifies {}
      {
        entered := EnterPart(res, section, start, i, entered);
        i := i + 1;
      }
      parts := entered;
    }

    /** The "comps" loop of load. */
    method EnterComposites(res: Resources, section: seq<Member>)
      modifies this`composites
      ensures composites == Enter(old(composites), res, section, CompositeKey, LoadComposite, |section|)
    {
      var start := composites;
      var entered := start;
      assert Makes(res, section, LoadComposite);
      var i := 0;
      while i < |section|
        invariant 0 <= i <= |section|
        invariant entered == Enter(start, res, section, CompositeKey, LoadComposite, i)
        modifies {}
      {
        entered := EnterComposite(res, section, start, i, entered);
        i := i + 1;
      }
      composites := entered;
    }

    /** load: on a failed gate, the reason and no change at all; otherwise the
      preference writes, every section entered into the existing collections
      (nothing is cleared first) and the file name set to the path. The
      reason is an in-out string: priorReason is what the caller passed, and
      a successful load leaves it as it was. */
    method Load(path: string, archive: Archive, parse: seq<bv8> -> Parsed, decode: seq<bv8> -> Image, maxPivots: nat,
                priorReason: string)
      returns (ok: bool, reason: string, settings: seq<Prefs.SettingWrite>)
      requires Valid()
      requires LoadResolvable(archive, parse, decode, maxPivots)
      modifies this
      ensures Valid()
      ensures ok == DataObject(archive, parse).Ok?
      ensures !ok ==> reason == DataObject(archive, parse).error && settings == []
      ensures !ok ==> folders == old(folders) && parts == old(parts) && composites == old(composites)
                      && fileName == old(fileName)
      ensures ok ==> reason == priorReason && settings == Prefs.PrefsWrites(archive.entries, parse) && fileName == path
      ensures ok ==> var res, section := ResourcesOf(archive, decode, maxPivots), Section(DataObject(archive, parse).value, "folders");
                     folders == Enter(old(folders), res, section, FolderKey, LoadFolder, |section|)
      ensures ok ==> var res, section := ResourcesOf(archive, decode, maxPivots), Section(DataObject(archive, parse).value, "parts");
                     parts == Enter(old(parts), res, section, PartKey, LoadPart, |section|)
      ensures ok ==> var res, section := ResourcesOf(archive, decode, maxPivots), Section(DataObject(archive, parse).value, "comps");
                     composites == Enter(old(composites), res, section, CompositeKey, LoadComposite, |section|)
    {
      var gate := OpenData(archive, parse);
      if gate.Err? {
        return false, gate.error, [];
      }
      var dataObj := gate.value;
      settings := Prefs.MergePrefs(archive.entries, parse);
      var imageMap := CollectImages(archive.entries, decode);
      var res := Resources(imageMap, maxPivots);
      var folderSection := Section(dataObj, "folders");
      var partSection := Section(dataObj, "parts");
      var compSection := Section(dataObj, "comps");
      EnterFolders(res, folderSection);
      EnterParts(res, partSection);
      EnterComposites(res, compSection);
      EnterHolds(old(folders), res, folderSection, FolderKey, LoadFolder, FolderRef, FolderKind, |folderSection|);
      EnterHolds(old(parts), res, partSection, PartKey, LoadPart, PartRef, PartKind, |partSection|);
      EnterHolds(old(composites), res, compSection, CompositeKey, LoadComposite, CompositeRef, CompositeKind, |compSection|);
      fileName := path;
      ok, reason := true, priorReason;
    }
  }
}
