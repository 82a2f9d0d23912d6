# MQ-Sprite project model in Dafny

This project models the persistence core of MQ-Sprite's `ProjectModel`
(`src/projectmodel.cpp`). The core has four parts:

- The identity semantics of `AssetRef`: `==`, `!=`, `<` and `qHash`.
- The in-memory store of folders, parts and composites: the typed and
  generic lookups, the name searches, `clear` and `save`.
- `load`. It runs a chain of gates over the archive's `data.json`, each
  with its own reason string. It then merges `prefs.json` into the
  settings store, decodes the `.png` entries into an image map, and
  enters every folder, part and composite the document describes.
- The schema mappers between JSON documents and assets: `JsonToFolder`,
  `FolderToJson`, `JsonToPart`, `JsonToComposite` and `CompositeToJson`.

## Files and modules

- `wrappers.dfy` (`Wrappers`): `Option` and `Result`.
- `uuids.dfy` (`Uuids`): `QUuid` as 32 hexadecimal digits, covering:
  - the null value;
  - the braced textual form and how it is parsed back;
  - the order, with the variant first and then the fields;
  - the hash.
- `text.dfy` (`Text`): the `QString` operations the core uses. These are `endsWith`,
  `replace(' ', '_')`, decimal numbers, `toUInt` and `toLongLong`.
- `json.dfy` (`Json`): JSON values, with an object as the sequence of its
  members. It covers `contains`, `value`, `insert` and the defaulting
  conversions `toString`, `toObject`, `toArray`, `toInt(default)` and
  `toVariant().toInt()`. The last rounds to the nearest integer with halves
  rounded up, as Qt 5's `qRound64` does, and keeps the low 32 bits.
- `asset_refs.dfy` (`AssetRefs`): `AssetRef` and its operators.
- `assets.dfy` (`Assets`): `Folder`, `Part` with its `Mode`s, and
  `Composite` with its `Child`ren, all as values.
- `archive.dfy` (`Archives`): the decoded archive, the zero-byte length
  scan and the `.png` image map.
- `prefs.dfy` (`Prefs`): the `prefs.json` sidecar, as the list of writes
  `load` makes to the settings store.
- `folder_mapper.dfy`, `part_mapper.dfy`, `composite_mapper.dfy`: the
  schema mappers.
- `project_model.dfy` (`Project`): the load gates, the section insertion
  and the class `ProjectModel`.

The ref-keyed collections are Dafny maps keyed by `AssetRefs.Canon`, the
one representative of a ref's class under `operator==`. All null refs share
one key, and any other ref is its own key. This takes the collections to be
hashes keyed by `AssetRef`, which is what the `qHash` overload at line 42
exists for; `AssetRefs.EqualIffSameCanon` and `AssetRefs.EqualRefsHashEqual`
show that such a hash keys exactly this way. The header declaring the
collections is not part of this model (see "## Left out").

### Where the code and its design description differ

The model follows the code in each of these cases:

- A successful `load` does not clear or stage anything. It inserts into the
  collections as they are, so earlier assets with other refs stay. It sets
  the file name only at the end. The failing gates all come before any
  change, so a failed load changes nothing.
- A frame array whose length is not `numFrames`, and a frame image of the
  wrong size, are not load failures. They are `Q_ASSERT`s (lines 488 and
  502), which stop a debug build and compile away in a release build. A
  frame image missing from the map is dereferenced (line 498) before it is
  asserted (line 501). A pivot count outside `0..MAX_PIVOTS` indexes outside
  the pivot slots, but only once a frame is read (lines 504-511); a mode
  without frames is stored with whatever pivot count it gives. The model
  makes the asserted conditions, the present image and, for modes with
  frames, the pivot bound preconditions: `PartMapper.ModeResolvable`,
  `PartMapper.PartResolvable` and `Project.LoadResolvable`.
- Only keys whose value is a non-empty object become modes. Other keys
  other than `"properties"`, such as `"name"` and `"parent"`, are skipped.
- A `data.json` with no zero byte at all reads as empty, because the scan
  leaves the length at 0. The same holds for the `prefs.json` scan, whose
  empty text then fails to parse and only logs a warning.

## Model

| member | source | states |
|---|---|---|
| AssetRefs.Canon | src/projectmodel.cpp:30-32 | the key a ref is stored under is equal to the ref |
| AssetRefs.EqualIsEquivalence | src/projectmodel.cpp:30-32 | operator== is reflexive, symmetric and transitive |
| AssetRefs.EqualIffSameCanon | src/projectmodel.cpp:30-32 | two refs are equal exactly when they share their representative key |
| AssetRefs.EqualSameUuid | src/projectmodel.cpp:30-32 | equal refs have the same uuid |
| AssetRefs.KindSeparatesRefs | src/projectmodel.cpp:30-36 | a non-null uuid under two different kinds gives unequal refs, in both directions |
| AssetRefs.EqualRefsHashEqual | src/projectmodel.cpp:30-44 | equal refs hash alike, because the hash reads the uuid only |
| AssetRefs.LessIsStrictOrderOnUuids | src/projectmodel.cpp:38-40 | operator< is irreflexive and transitive, and two refs are tied exactly when they share a uuid, whatever their kinds |
| AssetRefs.TieIsEqualWithinKind | src/projectmodel.cpp:30-40 | for refs of one kind, being tied under operator< is the same as operator==; a non-null uuid under two kinds is tied but unequal |
| AssetRefs.LessReversesUuidOrder | src/projectmodel.cpp:38-40 | for distinct uuids, a < b exactly when a's uuid is not below b's |
| Uuids.LessIsStrictTotalOrder | src/projectmodel.cpp:38-40 | the uuid order that operator< reverses is a strict total order |
| Uuids.FromToString | src/projectmodel.cpp:447-457 | a uuid written with toString reads back as itself through QUuid(QString) |
| Uuids.ToStringInjective | src/projectmodel.cpp:453-459 | distinct uuids are written as distinct strings |
| Text.ReplaceSpaces | src/projectmodel.cpp:590-591 | the fixed child name has the same length, has no space, and equals the name when the name has no space |
| Text.DecimalStringInjective | src/projectmodel.cpp:505-506 | different pivot numbers give different decimal strings |
| Text.ToUInt | src/projectmodel.cpp:228 | the colour read is at most 2^32-1, and a non-zero result is the value of an all-digit string |
| Json.Get | src/projectmodel.cpp:445 | a missing key reads as undefined, and a defined value is the member stored under the key |
| Json.Insert | src/projectmodel.cpp:455 | the key is present afterwards, and a new key is appended |
| Json.GetInsertSame | src/projectmodel.cpp:455 | a lookup finds the value just inserted |
| Json.GetInsertOther | src/projectmodel.cpp:455-457 | inserting one key leaves the value of every other key as it was |
| Json.ContainsInsertOther | src/projectmodel.cpp:455-457 | inserting one key leaves the presence of every other key as it was |
| Json.ToIntOfInt | src/projectmodel.cpp:196 | an int written as a JSON number reads back as itself through toInt(default), so a version of 1 passes the version gate |
| Json.VariantToIntOfInt | src/projectmodel.cpp:631-633 | an int written as a JSON number reads back as itself through toVariant().toInt() |
| Archives.FirstZero | src/projectmodel.cpp:166-171 | the result is the first zero byte at or after the start; None means there is none |
| Archives.TextLength | src/projectmodel.cpp:165-176 | the length is the index of the first zero byte when that is positive; it is 0 exactly when the entry starts with a zero byte or has none |
| Archives.ScanLength | src/projectmodel.cpp:165-171 | the scan loop computes TextLength |
| Archives.CollectImages | src/projectmodel.cpp:240-251 | the image map holds exactly the entries whose names end in ".png", each decoded |
| Prefs.MalformedSidecarNoWrites | src/projectmodel.cpp:201-220 | a missing prefs.json, one that does not parse, and one that is not an object make no settings writes |
| Prefs.BackgroundColour | src/projectmodel.cpp:228 | the stored colour is an unsigned 32-bit value |
| Prefs.WriteOf | src/projectmodel.cpp:225-233 | each key is written under its own name: "background_colour" as an unsigned number, any other key as the value itself |
| Prefs.MergePrefs | src/projectmodel.cpp:201-236 | the sidecar step makes exactly the writes PrefsWrites gives |
| Prefs.PrefsWritesKeys | src/projectmodel.cpp:224-234 | a well-formed sidecar gives one write per member, in the sidecar's order |
| Prefs.BackgroundColourRoundTrip | src/projectmodel.cpp:227-229 | a colour up to 4294967295 written as its decimal string is stored as that same unsigned value, never as a negative one |
| Project.DataObject | src/projectmodel.cpp:142-199 | load passes its gates exactly when the archive opens and reads, data.json exists, has a positive length, parses as an object and has version 1; otherwise the reason is one of the gate reasons |
| Project.OpenData | src/projectmodel.cpp:142-199 | the gate sequence of load, with its scan loop, computes DataObject |
| Project.EmptyWithoutTerminator | src/projectmodel.cpp:165-176 | a data.json with no zero byte, or one that starts with a zero byte, fails as "Internal data.json is empty" |
| Project.NonNumericVersionInvalid | src/projectmodel.cpp:196-199 | a version that is not a whole number reads as 0 and fails as an invalid version |
| Project.LoadFolder | src/projectmodel.cpp:260-267 | a folder made from a "folders" member has the member's key as its uuid and the Folder kind |
| Project.LoadPart | src/projectmodel.cpp:272-280 | a part made from a "parts" member has the member's key as its uuid and the Part kind |
| Project.LoadComposite | src/projectmodel.cpp:285-293 | a composite made from a "comps" member has the member's key as its uuid and the Composite kind |
| Project.Enter | src/projectmodel.cpp:254-295 | entering a section keeps every key already present |
| Project.EnterKeys | src/projectmodel.cpp:254-295 | after a section is entered, the keys are the earlier keys plus one per member's ref, and no others |
| Project.EnterKeepsOthers | src/projectmodel.cpp:254-295 | an asset under a ref that no member names is kept unchanged |
| Project.EnterLast | src/projectmodel.cpp:254-295 | a member's ref holds the asset made from that member when no later member names an equal ref |
| Project.EnterHolds | src/projectmodel.cpp:260-293 | entering assets that carry their member's ref keeps each collection keyed by ref and of one kind |
| Project.EnterPart | src/projectmodel.cpp:272-281 | one iteration of the "parts" loop extends the entered collection by one member |
| Project.EnterComposite | src/projectmodel.cpp:285-294 | one iteration of the "comps" loop extends the entered collection by one member |
| Project.Lookup | src/projectmodel.cpp:82-84 | QHash::value finds a stored asset whose ref equals the one given, and finds nothing only when no stored asset has an equal ref |
| Project.FindByName | src/projectmodel.cpp:108-115 | the search returns a stored asset with the name, and returns nothing only when no stored asset has it |
| Project.ProjectModel.constructor | src/projectmodel.cpp:50-53 | a new model is empty and valid |
| Project.ProjectModel.GetFolder | src/projectmodel.cpp:99-101 | getFolder returns a stored folder whose ref equals the one given, and null only when there is none |
| Project.ProjectModel.GetPart | src/projectmodel.cpp:82-84 | getPart returns a stored part whose ref equals the one given, and null only when there is none |
| Project.ProjectModel.GetComposite | src/projectmodel.cpp:91-93 | getComposite returns a stored composite whose ref equals the one given, and null only when there is none |
| Project.ProjectModel.HasFolder | src/projectmodel.cpp:103-105 | hasFolder holds exactly when some stored folder's ref equals the one given |
| Project.ProjectModel.HasPart | src/projectmodel.cpp:87-89 | hasPart holds exactly when some stored part's ref equals the one given |
| Project.ProjectModel.HasComposite | src/projectmodel.cpp:95-97 | hasComposite holds exactly when some stored composite's ref equals the one given |
| Project.ProjectModel.GetAsset | src/projectmodel.cpp:69-76 | getAsset looks only in the collection of the ref's kind, and returns an asset of that kind equal to the ref exactly when that collection has one |
| Project.ProjectModel.HasAsset | src/projectmodel.cpp:78-80 | hasAsset is hasX of the ref's kind; for a ref that is not null, it holds exactly when any collection holds an equal asset |
| Project.ProjectModel.FindFolderByName | src/projectmodel.cpp:126-133 | findFolderByName returns a stored folder with the name, and null only when no folder has it |
| Project.ProjectModel.FindPartByName | src/projectmodel.cpp:108-115 | findPartByName returns a stored part with the name, and null only when no part has it |
| Project.ProjectModel.FindCompositeByName | src/projectmodel.cpp:117-124 | findCompositeByName returns a stored composite with the name, and null only when no composite has it |
| Project.ProjectModel.Clear | src/projectmodel.cpp:135-140 | clear leaves all three collections and the file name empty |
| Project.ProjectModel.Save | src/projectmodel.cpp:302-304 | save always reports failure and changes nothing |
| Project.ProjectModel.EnterFolders | src/projectmodel.cpp:259-269 | the "folders" loop enters every member into the existing folders |
| Project.ProjectModel.EnterParts | src/projectmodel.cpp:271-282 | the "parts" loop enters every member into the existing parts |
| Project.ProjectModel.EnterComposites | src/projectmodel.cpp:284-295 | the "comps" loop enters every member into the existing composites |
| Project.ProjectModel.Load | src/projectmodel.cpp:142-299 | load succeeds exactly when the gates pass. On failure it gives the gate's reason and changes nothing. On success it makes the sidecar's writes, enters all three sections into the existing collections, keeps them keyed, sets the file name, and leaves the reason untouched |
| FolderMapper.JsonToFolder | src/projectmodel.cpp:443-451 | the name is read (empty when absent), the ref is kept, and the parent changes only when a "parent" key exists, becoming a Folder ref |
| FolderMapper.FolderToJson | src/projectmodel.cpp:453-459 | the name is written, the parent's uuid string is written only when the parent is not null, and otherwise "parent" is left as it was |
| FolderMapper.FolderRoundTrip | src/projectmodel.cpp:443-459 | a folder written and read back into a fresh folder has the same name and an equal parent (a null parent is omitted and comes back null) |
| PartMapper.PivotKeysDistinct | src/projectmodel.cpp:505-506 | two pivot keys are the same only for the same pivot and axis |
| PartMapper.ModeOf | src/projectmodel.cpp:479-512 | a mode read from a resolvable document has one anchor, one image and one point per pivot slot for each frame, a pivot count within the slots once it has a frame, unused slots at (0,0), and every image of the mode's size |
| PartMapper.FramelessModeKeepsPivotCount | src/projectmodel.cpp:484-512 | a mode without frames is read whatever its pivot count, keeps that count, and has no anchors and no images |
| PartMapper.ColumnsGrow | src/projectmodel.cpp:494-510 | each frame appends exactly one anchor, one image and one point to every pivot slot |
| PartMapper.PushFramePivots | src/projectmodel.cpp:504-511 | the two pivot loops extend every slot's column by the current frame |
| PartMapper.ReadMode | src/projectmodel.cpp:479-512 | the frame loop computes ModeOf |
| PartMapper.ApplyMember | src/projectmodel.cpp:470-515 | "properties" sets the properties string, a non-empty object value adds or replaces the mode under its key, and every other mode is unchanged |
| PartMapper.AddModes | src/projectmodel.cpp:469-516 | applying the members keeps ref, name and parent and every earlier mode key, and every new mode is well formed |
| PartMapper.ReadMember | src/projectmodel.cpp:470-515 | the body of the member loop computes ApplyMember |
| PartMapper.ApplyMembers | src/projectmodel.cpp:469-516 | the member loop computes AddModes |
| PartMapper.JsonToPart | src/projectmodel.cpp:461-517 | JsonToPart computes PartOf: name, parent when present, then the members in order |
| PartMapper.AddModesSnoc | src/projectmodel.cpp:469-516 | the members applied in order are the first ones applied, then the last |
| PartMapper.ModeKeys | src/projectmodel.cpp:469-516 | the mode keys are the earlier keys plus exactly the keys of non-empty object members other than "properties" |
| PartMapper.ModeFromLastMember | src/projectmodel.cpp:477-514 | the mode under a key is the one read from the last member with that key |
| PartMapper.PropertiesKept | src/projectmodel.cpp:472-475 | without a "properties" member the properties string is kept |
| PartMapper.PropertiesFromLastMember | src/projectmodel.cpp:472-475 | the properties string comes from the last "properties" member |
| PartMapper.LoadedPartWellFormed | src/projectmodel.cpp:461-517 | a part loaded into a fresh part keeps its ref, and every mode satisfies the per-frame structure, the pivot bound once it has a frame, and the (0,0) default for unused slots |
| CompositeMapper.Column | src/projectmodel.cpp:623-645 | reading n entries gives n values |
| CompositeMapper.ColumnAt | src/projectmodel.cpp:623-645 | the value at position i is read from entry i at position i |
| CompositeMapper.ChildOf | src/projectmodel.cpp:630-641 | a child read at a position has that position as its index and a Part ref as its part |
| CompositeMapper.ChildMapOf | src/projectmodel.cpp:642 | inserting the children keeps the old names and adds every name inserted |
| CompositeMapper.Header | src/projectmodel.cpp:614-621 | reading the header keeps the ref, the child list and the child map |
| CompositeMapper.ReadIndices | src/projectmodel.cpp:638-641 | the inner loop reads every index in order |
| CompositeMapper.ReadChild | src/projectmodel.cpp:626-641 | one entry of "parts" is read into ChildOf at its position |
| CompositeMapper.AddEntries | src/projectmodel.cpp:623-645 | the loop appends every name in array order and inserts every child under its name |
| CompositeMapper.JsonToComposite | src/projectmodel.cpp:613-646 | JsonToComposite computes CompositeOf: the header, then the children in array order |
| CompositeMapper.ChildFromLastPair | src/projectmodel.cpp:642 | the child under a name is the one inserted last with that name |
| CompositeMapper.ChildMapOfIndices | src/projectmodel.cpp:624-644 | every inserted child sits under the name at the position its index gives, and refers to a Part |
| CompositeMapper.ChildIndexIsPosition | src/projectmodel.cpp:623-645 | each child read from "parts" has as its index the position of an entry with its name; the last entry with a name supplies that name's child; every child refers to a Part |
| CompositeMapper.Numbers | src/projectmodel.cpp:601-605 | one number is written per index |
| CompositeMapper.Entries | src/projectmodel.cpp:588-609 | one entry is written per name of the child list |
| CompositeMapper.EntriesAt | src/projectmodel.cpp:588-609 | entry i is the object written for the i-th name and its child |
| CompositeMapper.WriteChild | src/projectmodel.cpp:590-607 | the loop body writes ChildDoc: the fixed name, the fields, the part's uuid string and the indices |
| CompositeMapper.WriteChildren | src/projectmodel.cpp:588-609 | the loop writes one entry per name of the child list, in order |
| CompositeMapper.CompositeToJson | src/projectmodel.cpp:579-611 | CompositeToJson writes CompositeDoc: root, properties, name, the parent only when not null, then the entries |
| CompositeMapper.ChildDocFields | src/projectmodel.cpp:594-605 | each field of a written child object is found under its key |
| CompositeMapper.ChildRoundTrip | src/projectmodel.cpp:590-641 | a child whose name has no space, written and read back at its index, is the same child under the same name |
| CompositeMapper.IndicesRoundTrip | src/projectmodel.cpp:601-641 | a child's indices written as numbers read back as themselves |
| CompositeMapper.CompositeDocFields | src/projectmodel.cpp:579-611 | each header field of a written composite is found under its key, and "parent" is present exactly when the parent is not null |
| CompositeMapper.DocNames | src/projectmodel.cpp:588-628 | the entries written read back as the child list |
| CompositeMapper.DocKids | src/projectmodel.cpp:588-641 | each entry written reads back as the child stored for its name |
| CompositeMapper.DocChildren | src/projectmodel.cpp:588-645 | the entries written read back as the child map |
| CompositeMapper.DocHeader | src/projectmodel.cpp:579-621 | root, properties and name read back as written, and the parent comes back equal |
| CompositeMapper.CompositeRoundTrip | src/projectmodel.cpp:579-646 | a composite written and read back into a fresh composite restores root, properties, name, an equal parent, the child order and the child map. This holds when child names have no spaces, the listed names are exactly the map's keys, each index is its position, and each part is a Part ref |

## Left out

- Tar container reading (the `TarIn` reader) is not part of this model. The
  archive arrives already decoded, as `Archives.Archive`: a file that cannot
  be opened, a tarball that does not read, or the map from entry names to
  bytes.
- JSON text parsing (`QJsonDocument::fromJson`) is a parameter, `parse`.
  Its result is a parse error with its message, or a document with its root
  value. A document without data is modelled as a root that is not an
  object.
- PNG decoding is a parameter, `decode`, which is total. So
  `Q_ASSERT(res)` after `loadFromData` always holds in the model, and
  pixel contents are opaque.
- The settings store (`QSettings`) is external. `Load` returns the writes
  it would make, in order, as `settings`. The parse-error and not-an-object
  warnings for `prefs.json` only log, so the model drops them.
- Logging, the singleton (`sInstance`, `Instance`, `PM`), the destructor and
  `createAssetRef` are not modelled. `createAssetRef` draws a random uuid.
- `PartToJson` only logs, so it has no model. The commented-out bodies of
  `save` and `PartToJson` are not live code and are not modelled.
- `MAX_PIVOTS` and the defaults of `Composite::Child` are defined in a
  header that is not part of this model. `MAX_PIVOTS` is the parameter
  `maxPivots`. The child `QMap::value` gives for a missing name is the
  parameter `absent` of `CompositeToJson`.
- `QJsonObject` keeps its keys sorted. Here an object is the sequence of
  its members in the order given, and the iteration order of `QHash` and
  `std::map` is left unspecified. The name searches and the image loop pick
  any remaining element, so `FindByName` is proved to return some asset
  with the name rather than the first one in hash order.
- Assets are values. Sharing through `QSharedPointer`, aliasing of the
  returned pointers and in-place mutation through them are not modelled.
- The loops of `load`, `JsonToPart`, `JsonToComposite` and `CompositeToJson`
  are split into helper methods, one per loop or loop body, each proved
  against the function that specifies it. The order of operations is the
  source's.
- Project.ProjectModel.Load: requires `Project.LoadResolvable`: every part
  document meets the conditions of `PartMapper.ModeResolvable` against the
  archive's images. A missing frame image is read through a null pointer
  (line 498), and a pivot count outside the slots in a mode with frames
  indexes outside them (lines 507 and 510); both are undefined behaviour,
  not modelled. A frame count other than `numFrames` (line 488) and a frame
  image of the wrong size (line 502) stop a debug build at a `Q_ASSERT`; in
  a release build the asserts compile away and the source stores the
  malformed mode. The model takes the asserted conditions as preconditions
  and does not describe what a release build stores then. It also requires
  `Valid()`, the keying invariant every reachable model keeps.
- PartMapper.JsonToPart: requires `PartMapper.PartResolvable`, for the same
  reasons; so do `PartMapper.ReadMode`, `PartMapper.ModeOf` and the lemmas
  about `PartMapper.AddModes`.
- Project.Lookup: the header declaring `folders`, `parts` and `composites`
  is not part of this model. They are taken to be `QHash`es, which is what
  the `qHash(const AssetRef&)` overload (line 42) serves. The commented-out
  save sketch iterates them with `QMapIterator` (lines 331, 346, 361). Were
  they `QMap`s, lookup would go by the reversed `operator<`, which ties refs
  with the same uuid whatever their kind. By `AssetRefs.TieIsEqualWithinKind`,
  that changes nothing for a ref of the collection's own kind, and so
  nothing for `getAsset` and `hasAsset`. Only `getFolder`, `getPart` or
  `getComposite` called with a ref of another kind would then find an asset
  where the model finds none.
- Project.ProjectModel.GetPart, GetFolder, GetComposite, HasPart,
  HasFolder, HasComposite, GetAsset and HasAsset require `Valid()`, which
  the constructor, `Clear` and `Load` establish.
- Text.ToUInt: accepts only a non-empty string of decimal digits.
  Surrounding whitespace and a leading `+` are not modelled, and such
  strings read as 0.
- Json.ToInt: a whole number outside the int range reads as the default.
  Qt's conversion of such a value is not modelled.
- Json.Round: follows Qt 5's `qRound64` on exact reals. It does not model
  floating-point error, or values beyond the 64-bit range, whose conversion
  is undefined behaviour in C++. The result is then cut to 32 bits by
  `Wrap32`.
- Uuids.FromString: reads an optional opening brace and then the dashed
  8-4-4-4-12 hexadecimal digits, and ignores anything after them. Any other
  text gives the null uuid. Other forms `QUuid` may accept are not
  modelled.
