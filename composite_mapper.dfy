/** ProjectModel::JsonToComposite and ProjectModel::CompositeToJson: a
    composite's child list in array order, each child's positional index,
    and the space-to-underscore normalisation of child names on writing. */
module CompositeMapper {
  import Uuids
  import Text
  import opened AssetRefs
  import opened Json
  import opened Assets

  // ---------------------------------------------------------------------
  // Reading
  // ---------------------------------------------------------------------

  /** The first n entries of an array, each read by read(entry, position). */
  function Column<T>(read: (Value, nat) -> T, items: seq<Value>, n: nat): (r: seq<T>)
    requires n <= |items|
    ensures |r| == n
  {
    if n == 0 then [] else Column(read, items, n - 1) + [read(items[n - 1], n - 1)]
  }

  lemma {:induction false} ColumnAt<T>(read: (Value, nat) -> T, items: seq<Value>, n: nat, i: nat)
    requires i < n <= |items|
    ensures Column(read, items, n)[i] == read(items[i], i)
  {
    if i < n - 1 {
      ColumnAt(read, items, n - 1, i);
    }
  }

  /** A child's entry in its "children" array, read with toVariant().toInt(). */
  function IndexAt(v: Value, position: nat): Int32 {
    VariantToInt(v)
  }

  function ChildName(item: Value): string {
    ToStr(Get(ToObject(item), "name"))
  }

  /** The name of an entry of "parts", whatever its position. */
  function NameAt(item: Value, position: nat): string {
    ChildName(item)
  }

  /** The child an entry of "parts" yields at position index. */
  function ChildOf(item: Value, index: nat): (c: Child)
    ensures c.index == index && c.part.kind == PartKind
  {
    var o := ToObject(item);
    var cs := ToArray(Get(o, "children"));
    Child(
      VariantToInt(Get(o, "parent")), VariantToInt(Get(o, "parentPivot")), VariantToInt(Get(o, "z")),
      AssetRef(Uuids.FromString(ToStr(Get(o, "part"))), PartKind),
      Column(IndexAt, cs, |cs|), index)
  }

  /** A child map after the first n (name, child) pairs have been inserted in
      order (a later pair replaces an earlier one of the same name): every
      name inserted is a key, and the old keys stay. */
  function ChildMapOf(m: map<string, Child>, names: seq<string>, kids: seq<Child>, n: nat): (r: map<string, Child>)
    requires n <= |names| && n <= |kids|
    ensures m.Keys <= r.Keys
    ensures forall i :: 0 <= i < n ==> names[i] in r
  {
    if n == 0 then m
    else
      ChildMapOf(m, names, kids, n - 1)[names[n - 1] := kids[n - 1]]
  }

  /** The header JsonToComposite sets before reading the children: root,
      name and properties, and the parent only when the document has one. */
  function Header(obj: seq<Member>, comp: Composite): (r: Composite)
    ensures r.ref == comp.ref && r.children == comp.children && r.childrenMap == comp.childrenMap
  {
    var c := comp.(root := VariantToInt(Get(obj, "root")), name := ToStr(Get(obj, "name")),
                   properties := ToStr(Get(obj, "properties")));
    if Contains(obj, "parent") then c.(parent := ParentRef(obj)) else c
  }

  /** The entries of "parts" added to a composite: each name appended to the
      child list, each child inserted under its name. */
  function AddChildren(comp: Composite, items: seq<Value>): Composite {
    comp.(children := comp.children + Column(NameAt, items, |items|),
          childrenMap := ChildMapOf(comp.childrenMap, Column(NameAt, items, |items|), Column(ChildOf, items, |items|), |items|))
  }

  /** The composite a document yields when mapped onto a given composite. */
  function CompositeOf(obj: seq<Member>, comp: Composite): Composite {
    AddChildren(Header(obj, comp), ToArray(Get(obj, "parts")))
  }

  /** The inner loop of JsonToComposite: each entry of a child's "children"
      array read with toVariant().toInt(), in order. */
  method ReadIndices(items: seq<Value>) returns (cs: seq<Int32>)
    ensures cs == Column(IndexAt, items, |items|)
  {
    cs := [];
    for j := 0 to |items|
      invariant cs == Column(IndexAt, items, j)
    {
      cs := cs + [VariantToInt(items[j])];
    }
  }

  /** One entry of "parts" read into the child at position index. */
  method ReadChild(item: Value, index: nat) returns (child: Child)
    ensures child == ChildOf(item, index)
  {
    var childObject := ToObject(item);
    child := Child(
      VariantToInt(Get(childObject, "parent")), VariantToInt(Get(childObject, "parentPivot")),
      VariantToInt(Get(childObject, "z")),
      AssetRef(Uuids.FromString(ToStr(Get(childObject, "part"))), PartKind), [], index);
    var childrenOfChild := ReadIndices(ToArray(Get(childObject, "children")));
    child := child.(children := childrenOfChild);
  }

  /** One step of the loop below: the entry at position index appended and
      inserted extends the columns by that entry. */
  lemma AddEntryStep(comp: Composite, children: seq<Value>, index: nat, listed: seq<string>, mapped: map<string, Child>)
    requires index < |children|
    requires listed == comp.children + Column(NameAt, children, index)
    requires mapped == ChildMapOf(comp.childrenMap, Column(NameAt, children, |children|), Column(ChildOf, children, |children|), index)
    ensures listed + [ChildName(children[index])] == comp.children + Column(NameAt, children, index + 1)
    ensures mapped[ChildName(children[index]) := ChildOf(children[index], index)]
         == ChildMapOf(comp.childrenMap, Column(NameAt, children, |children|), Column(ChildOf, children, |children|), index + 1)
  {
    ColumnAt(NameAt, children, |children|, index);
    ColumnAt(ChildOf, children, |children|, index);
  }

  /** The loop of JsonToComposite over the entries of "parts": each name
      appended to the child list, each child inserted under its name. */
  method AddEntries(comp: Composite, children: seq<Value>) returns (r: Composite)
    ensures r == AddChildren(comp, children)
  {
    var listed := comp.children;
    var mapped := comp.childrenMap;
    var index := 0;
    while index < |children|
      invariant 0 <= index <= |children|
      invariant listed == comp.children + Column(NameAt, children, index)
      invariant mapped == ChildMapOf(comp.childrenMap, Column(NameAt, children, |children|), Column(ChildOf, children, |children|), index)
    {
      AddEntryStep(comp, children, index, listed, mapped);
      var name := ToStr(Get(ToObject(children[index]), "name"));
      listed := listed + [name];
      var child := ReadChild(children[index], index);
      mapped := mapped[name := child];
      index := index + 1;
    }
    r := comp.(children := listed, childrenMap := mapped);
  }

  /** JsonToComposite: the header fields, then for each entry of "parts" in
      order, its name appended to the child list and its child, numbered by
      position, inserted into the child map. */
  method JsonToComposite(obj: seq<Member>, comp: Composite) returns (r: Composite)
    ensures r == CompositeOf(obj, comp)
  {
    r := comp.(root := VariantToInt(Get(obj, "root")));
    r := r.(name := ToStr(Get(obj, "name")));
    r := r.(properties := ToStr(Get(obj, "properties")));
    if Contains(obj, "parent") {
      r := r.(parent := ParentRef(obj));
    }
    r := AddEntries(r, ToArray(Get(obj, "parts")));
  }

  /** The child stored under a name is the child of the last pair with that name. */
  lemma {:induction false} ChildFromLastPair(m: map<string, Child>, names: seq<string>, kids: seq<Child>, n: nat, i: nat)
    requires i < n <= |names| && n <= |kids|
    requires forall j :: i < j < n ==> names[j] != names[i]
    ensures names[i] in ChildMapOf(m, names, kids, n) && ChildMapOf(m, names, kids, n)[names[i]] == kids[i]
  {
    if i < n - 1 {
      ChildFromLastPair(m, names, kids, n - 1, i);
    }
  }

  /** When every child is numbered by its position and refers to a Part,
      every child the pairs added sits under the name at the position its
      index gives and refers to a Part. */
  lemma {:induction false} ChildMapOfIndices(m: map<string, Child>, names: seq<string>, kids: seq<Child>, n: nat)
    requires n <= |names| && n <= |kids|
    requires forall i :: 0 <= i < n ==> kids[i].index == i && kids[i].part.kind == PartKind
    ensures forall k :: k in ChildMapOf(m, names, kids, n) && k !in m ==>
              var c := ChildMapOf(m, names, kids, n)[k];
              c.index < n && names[c.index] == k && c.part.kind == PartKind
  {
    if n > 0 {
      ChildMapOfIndices(m, names, kids, n - 1);
      var prev := ChildMapOf(m, names, kids, n - 1);
      var r := ChildMapOf(m, names, kids, n);
      assert r == prev[names[n - 1] := kids[n - 1]];
      forall k | k in r && k !in m
        ensures r[k].index < n && names[r[k].index] == k && r[k].part.kind == PartKind
      {
        if k != names[n - 1] {
          assert r[k] == prev[k];
        }
      }
    }
  }

  /** Every child read from the entries of "parts" sits under the name of the
      entry at the position its index gives and refers to a Part, and the
      entry that is last with its name supplies that name's child. */
  lemma ChildIndexIsPosition(m: map<string, Child>, items: seq<Value>)
    ensures forall k :: k in ChildMapOf(m, Column(NameAt, items, |items|), Column(ChildOf, items, |items|), |items|) && k !in m ==>
              var c := ChildMapOf(m, Column(NameAt, items, |items|), Column(ChildOf, items, |items|), |items|)[k];
              c.index < |items| && ChildName(items[c.index]) == k && c.part.kind == PartKind
    ensures forall i :: 0 <= i < |items| && (forall j :: i < j < |items| ==> ChildName(items[j]) != ChildName(items[i])) ==>
              ChildName(items[i]) in ChildMapOf(m, Column(NameAt, items, |items|), Column(ChildOf, items, |items|), |items|) &&
              ChildMapOf(m, Column(NameAt, items, |items|), Column(ChildOf, items, |items|), |items|)[ChildName(items[i])] == ChildOf(items[i], i)
  {
    var names := Column(NameAt, items, |items|);
    var kids := Column(ChildOf, items, |items|);
    forall i | 0 <= i < |items| ensures names[i] == ChildName(items[i]) && kids[i] == ChildOf(items[i], i) {
      ColumnAt(NameAt, items, |items|, i);
      ColumnAt(ChildOf, items, |items|, i);
    }
    ChildMapOfIndices(m, names, kids, |items|);
    forall i | 0 <= i < |items| && (forall j :: i < j < |items| ==> ChildName(items[j]) != ChildName(items[i]))
      ensures names[i] in ChildMapOf(m, names, kids, |items|) && ChildMapOf(m, names, kids, |items|)[names[i]] == kids[i]
    {
      ChildFromLastPair(m, names, kids, |items|, i);
    }
  }

  // ---------------------------------------------------------------------
  // Writing
  // ---------------------------------------------------------------------

  /** The first n indices of a child's children, as JSON numbers. */
  function Numbers(cs: seq<Int32>, n: nat): (r: seq<Value>)
    requires n <= |cs|
    ensures |r| == n
  {
    if n == 0 then [] else Numbers(cs, n - 1) + [Number(cs[n - 1] as real)]
  }

  lemma {:induction false} NumbersAt(cs: seq<Int32>, n: nat, j: nat)
    requires j < n <= |cs|
    ensures Numbers(cs, n)[j] == Number(cs[j] as real)
  {
    if j < n - 1 {
      NumbersAt(cs, n - 1, j);
    }
  }

  /** The object CompositeToJson writes for one child: its name with spaces
      replaced by underscores, its fields, and its part's uuid as text. */
  function ChildDoc(name: string, child: Child): Value {
    var o1 := Insert([], "name", Str(Text.ReplaceSpaces(name)));
    var o2 := Insert(o1, "parent", Number(child.parent as real));
    var o3 := Insert(o2, "parentPivot", Number(child.parentPivot as real));
    var o4 := Insert(o3, "z", Number(child.z as real));
    var o5 := Insert(o4, "part", Str(Uuids.ToString(child.part.uuid)));
    Obj(Insert(o5, "children", Arr(Numbers(child.children, |child.children|))))
  }

  /** Every name in the child list has a child in the map. */
  predicate ChildrenMapped(comp: Composite) {
    forall i :: 0 <= i < |comp.children| ==> comp.children[i] in comp.childrenMap
  }

  /** QMap::value on the child map: the child stored under the name, and
      for a name without one the default-constructed child, given as absent
      (the field defaults of Composite::Child sit in a header outside this
      model). */
  function ChildFor(comp: Composite, name: string, absent: Child): (c: Child)
    ensures name in comp.childrenMap ==> c == comp.childrenMap[name]
    ensures name !in comp.childrenMap ==> c == absent
  {
    if name in comp.childrenMap then comp.childrenMap[name] else absent
  }

  /** The first n entries written for a composite, one per name of its
      child list, each written by write(name, child). */
  function Entries(write: (string, Child) -> Value, comp: Composite, absent: Child, n: nat): (r: seq<Value>)
    requires n <= |comp.children|
    ensures |r| == n
  {
    if n == 0 then []
    else Entries(write, comp, absent, n - 1) + [write(comp.children[n - 1], ChildFor(comp, comp.children[n - 1], absent))]
  }

  lemma {:induction false} EntriesAt(write: (string, Child) -> Value, comp: Composite, absent: Child, n: nat, i: nat)
    requires i < n <= |comp.children|
    ensures Entries(write, comp, absent, n)[i] == write(comp.children[i], ChildFor(comp, comp.children[i], absent))
  {
    if i < n - 1 {
      EntriesAt(write, comp, absent, n - 1, i);
    }
  }

  /** The document CompositeToJson writes into obj. */
  function CompositeDoc(name: string, comp: Composite, obj: seq<Member>, absent: Child): seq<Member> {
    var o1 := Insert(obj, "root", Number(comp.root as real));
    var o2 := Insert(o1, "properties", Str(comp.properties));
    var o3 := Insert(o2, "name", Str(name));
    var o4 := if !IsNull(comp.parent) then Insert(o3, "parent", Str(Uuids.ToString(comp.parent.uuid))) else o3;
    Insert(o4, "parts", Arr(Entries(ChildDoc, comp, absent, |comp.children|)))
  }

  /** The body of CompositeToJson's loop: one child's object, its name with
      spaces replaced, its indices written one by one. */
  method WriteChild(childName: string, child: Child) returns (v: Value)
    ensures v == ChildDoc(childName, child)
  {
    var fixedChildName := Text.ReplaceSpaces(childName);
    var childObject := Insert([], "name", Str(fixedChildName));
    childObject := Insert(childObject, "parent", Number(child.parent as real));
    childObject := Insert(childObject, "parentPivot", Number(child.parentPivot as real));
    childObject := Insert(childObject, "z", Number(child.z as real));
    childObject := Insert(childObject, "part", Str(Uuids.ToString(child.part.uuid)));

    var children: seq<Value> := [];
    for k := 0 to |child.children|
      invariant children == Numbers(child.children, k)
    {
      children := children + [Number(child.children[k] as real)];
    }
    childObject := Insert(childObject, "children", Arr(children));
    v := Obj(childObject);
  }

  /** The loop of CompositeToJson: one object per name of the child list, in order. */
  method WriteChildren(comp: Composite, absent: Child) returns (compChildren: seq<Value>)
    ensures compChildren == Entries(ChildDoc, comp, absent, |comp.children|)
  {
    compChildren := [];
    for i := 0 to |comp.children|
      invariant compChildren == Entries(ChildDoc, comp, absent, i)
    {
      var childName := comp.children[i];
      var child := if childName in comp.childrenMap then comp.childrenMap[childName] else absent;
      var childObject := WriteChild(childName, child);
      compChildren := compChildren + [childObject];
    }
  }

  /** CompositeToJson: the header fields, the parent when it is not null, and
      one entry per name of the child list, in that order. */
  method CompositeToJson(name: string, comp: Composite, obj: seq<Member>, absent: Child) returns (r: seq<Member>)
    ensures r == CompositeDoc(name, comp, obj, absent)
  {
    r := Insert(obj, "root", Number(comp.root as real));
    r := Insert(r, "properties", Str(comp.properties));
    r := Insert(r, "name", Str(name));
    if !IsNull(comp.parent) {
      r := Insert(r, "parent", Str(Uuids.ToString(comp.parent.uuid)));
    }
    var compChildren := WriteChildren(comp, absent);
    r := Insert(r, "parts", Arr(compChildren));
  }

  // ---------------------------------------------------------------------
  // Round trip
  // ---------------------------------------------------------------------

  /** What a composite must satisfy to survive writing and reading back:
      child names without spaces, exactly the listed names in the map, each
      child's index equal to its position in the list (which makes the names
      unique), and each child's part a Part ref. */
  predicate RoundTrips(comp: Composite) {
    && ChildrenMapped(comp)
    && (forall k :: k in comp.childrenMap ==> k in comp.children)
    && (forall i :: 0 <= i < |comp.children| ==> ' ' !in comp.children[i])
    && (forall i :: 0 <= i < |comp.children| ==> comp.childrenMap[comp.children[i]].index == i)
    && (forall i :: 0 <= i < |comp.children| ==> comp.childrenMap[comp.children[i]].part.kind == PartKind)
  }

  /** The fields of a written child object, as lookups find them. */
  lemma ChildDocFields(name: string, child: Child)
    ensures Get(ToObject(ChildDoc(name, child)), "name") == Str(Text.ReplaceSpaces(name))
    ensures Get(ToObject(ChildDoc(name, child)), "parent") == Number(child.parent as real)
    ensures Get(ToObject(ChildDoc(name, child)), "parentPivot") == Number(child.parentPivot as real)
    ensures Get(ToObject(ChildDoc(name, child)), "z") == Number(child.z as real)
    ensures Get(ToObject(ChildDoc(name, child)), "part") == Str(Uuids.ToString(child.part.uuid))
    ensures Get(ToObject(ChildDoc(name, child)), "children") == Arr(Numbers(child.children, |child.children|))
  {
    var o1 := Insert([], "name", Str(Text.ReplaceSpaces(name)));
    var o2 := Insert(o1, "parent", Number(child.parent as real));
    var o3 := Insert(o2, "parentPivot", Number(child.parentPivot as real));
    var o4 := Insert(o3, "z", Number(child.z as real));
    var o5 := Insert(o4, "part", Str(Uuids.ToString(child.part.uuid)));
    var children := Arr(Numbers(child.children, |child.children|));
    GetInsertSame([], "name", Str(Text.ReplaceSpaces(name)));
    GetInsertSame(o1, "parent", Number(child.parent as real));
    GetInsertSame(o2, "parentPivot", Number(child.parentPivot as real));
    GetInsertSame(o3, "z", Number(child.z as real));
    GetInsertSame(o4, "part", Str(Uuids.ToString(child.part.uuid)));
    GetInsertSame(o5, "children", children);
    GetInsertOther(o1, "parent", Number(child.parent as real), "name");
    GetInsertOther(o2, "parentPivot", Number(child.parentPivot as real), "name");
    GetInsertOther(o2, "parentPivot", Number(child.parentPivot as real), "parent");
    GetInsertOther(o3, "z", Number(child.z as real), "name");
    GetInsertOther(o3, "z", Number(child.z as real), "parent");
    GetInsertOther(o3, "z", Number(child.z as real), "parentPivot");
    GetInsertOther(o4, "part", Str(Uuids.ToString(child.part.uuid)), "name");
    GetInsertOther(o4, "part", Str(Uuids.ToString(child.part.uuid)), "parent");
    GetInsertOther(o4, "part", Str(Uuids.ToString(child.part.uuid)), "parentPivot");
    GetInsertOther(o4, "part", Str(Uuids.ToString(child.part.uuid)), "z");
    GetInsertOther(o5, "children", children, "name");
    GetInsertOther(o5, "children", children, "parent");
    GetInsertOther(o5, "children", children, "parentPivot");
    GetInsertOther(o5, "children", children, "z");
    GetInsertOther(o5, "children", children, "part");
  }

  /** A child written and read back at its own index is the same child. */
  lemma ChildRoundTrip(name: string, child: Child)
    requires ' ' !in name && child.part.kind == PartKind
    ensures ChildName(ChildDoc(name, child)) == name
    ensures ChildOf(ChildDoc(name, child), child.index) == child
  {
    ChildDocFields(name, child);
    VariantToIntOfInt(child.parent);
    VariantToIntOfInt(child.parentPivot);
    VariantToIntOfInt(child.z);
    Uuids.FromToString(child.part.uuid);
    IndicesRoundTrip(child.children);
  }

  /** A child's indices written as numbers read back as themselves. */
  lemma IndicesRoundTrip(cs: seq<Int32>)
    ensures Column(IndexAt, Numbers(cs, |cs|), |cs|) == cs
  {
    var written := Numbers(cs, |cs|);
    forall j | 0 <= j < |cs| ensures Column(IndexAt, written, |cs|)[j] == cs[j] {
      ColumnAt(IndexAt, written, |cs|, j);
      NumbersAt(cs, |cs|, j);
      VariantToIntOfInt(cs[j]);
    }
  }

  /** Inserting pairs whose child is always the one a map m holds for the
      name gives the part of m on exactly the inserted names. */
  lemma {:induction false} ChildMapOfMapPairs(m: map<string, Child>, names: seq<string>, kids: seq<Child>, n: nat)
    requires n <= |names| && n <= |kids|
    requires forall i :: 0 <= i < n ==> names[i] in m && kids[i] == m[names[i]]
    ensures forall k :: k in ChildMapOf(map[], names, kids, n) ==> k in m && ChildMapOf(map[], names, kids, n)[k] == m[k]
  {
    if n > 0 {
      ChildMapOfMapPairs(m, names, kids, n - 1);
    }
  }

  /** Inserting, for every key of a map, the pair of that key and its child
      rebuilds the map. */
  lemma ChildMapOfListed(m: map<string, Child>, names: seq<string>, kids: seq<Child>)
    requires |names| == |kids|
    requires forall i :: 0 <= i < |names| ==> names[i] in m && kids[i] == m[names[i]]
    requires forall k :: k in m ==> k in names
    ensures ChildMapOf(map[], names, kids, |names|) == m
  {
    ChildMapOfMapPairs(m, names, kids, |names|);
    forall k | k in m ensures k in ChildMapOf(map[], names, kids, |names|) {
      var i :| 0 <= i < |names| && names[i] == k;
    }
  }

  /** The fields of a written composite document, as lookups find them. */
  lemma CompositeDocFields(name: string, comp: Composite, absent: Child)
    ensures Get(CompositeDoc(name, comp, [], absent), "root") == Number(comp.root as real)
    ensures Get(CompositeDoc(name, comp, [], absent), "properties") == Str(comp.properties)
    ensures Get(CompositeDoc(name, comp, [], absent), "name") == Str(name)
    ensures Get(CompositeDoc(name, comp, [], absent), "parts") == Arr(Entries(ChildDoc, comp, absent, |comp.children|))
    ensures Contains(CompositeDoc(name, comp, [], absent), "parent") == !IsNull(comp.parent)
    ensures !IsNull(comp.parent) ==> Get(CompositeDoc(name, comp, [], absent), "parent") == Str(Uuids.ToString(comp.parent.uuid))
  {
    var parts := Arr(Entries(ChildDoc, comp, absent, |comp.children|));
    var parent := Str(Uuids.ToString(comp.parent.uuid));
    var o1 := Insert([], "root", Number(comp.root as real));
    var o2 := Insert(o1, "properties", Str(comp.properties));
    var o3 := Insert(o2, "name", Str(name));
    var o4 := if !IsNull(comp.parent) then Insert(o3, "parent", parent) else o3;
    GetInsertSame(o4, "parts", parts);
    GetInsertOther(o4, "parts", parts, "root");
    GetInsertOther(o4, "parts", parts, "properties");
    GetInsertOther(o4, "parts", parts, "name");
    GetInsertOther(o4, "parts", parts, "parent");
    ContainsInsertOther(o4, "parts", parts, "parent");
    if !IsNull(comp.parent) {
      GetInsertSame(o3, "parent", parent);
      GetInsertOther(o3, "parent", parent, "root");
      GetInsertOther(o3, "parent", parent, "properties");
      GetInsertOther(o3, "parent", parent, "name");
    }
    ContainsInsertOther(o2, "name", Str(name), "parent");
    ContainsInsertOther(o1, "properties", Str(comp.properties), "parent");
    ContainsInsertOther([], "root", Number(comp.root as real), "parent");
    GetInsertSame(o2, "name", Str(name));
    GetInsertOther(o2, "name", Str(name), "root");
    GetInsertOther(o2, "name", Str(name), "properties");
    GetInsertSame(o1, "properties", Str(comp.properties));
    GetInsertOther(o1, "properties", Str(comp.properties), "root");
    GetInsertSame([], "root", Number(comp.root as real));
  }

  /** The entries written for a composite read back as its child list. */
  lemma DocNames(comp: Composite, absent: Child)
    requires RoundTrips(comp)
    ensures Column(NameAt, Entries(ChildDoc, comp, absent, |comp.children|), |comp.children|) == comp.children
  {
    var items := Entries(ChildDoc, comp, absent, |comp.children|);
    forall i | 0 <= i < |items| ensures Column(NameAt, items, |items|)[i] == comp.children[i] {
      ColumnAt(NameAt, items, |items|, i);
      EntriesAt(ChildDoc, comp, absent, |comp.children|, i);
      ChildRoundTrip(comp.children[i], comp.childrenMap[comp.children[i]]);
    }
  }

  /** Each entry written for a composite reads back as the child its name has in the map. */
  lemma DocKids(comp: Composite, absent: Child)
    requires RoundTrips(comp)
    ensures forall i :: 0 <= i < |comp.children| ==>
              Column(ChildOf, Entries(ChildDoc, comp, absent, |comp.children|), |comp.children|)[i] == comp.childrenMap[comp.children[i]]
  {
    var items := Entries(ChildDoc, comp, absent, |comp.children|);
    forall i | 0 <= i < |items| ensures Column(ChildOf, items, |items|)[i] == comp.childrenMap[comp.children[i]] {
      ColumnAt(ChildOf, items, |items|, i);
      EntriesAt(ChildDoc, comp, absent, |comp.children|, i);
      ChildRoundTrip(comp.children[i], comp.childrenMap[comp.children[i]]);
    }
  }

  /** The entries written for a composite read back as its child map. */
  lemma DocChildren(comp: Composite, absent: Child)
    requires RoundTrips(comp)
    ensures ChildMapOf(map[], Column(NameAt, Entries(ChildDoc, comp, absent, |comp.children|), |comp.children|),
                       Column(ChildOf, Entries(ChildDoc, comp, absent, |comp.children|), |comp.children|), |comp.children|)
         == comp.childrenMap
  {
    var items := Entries(ChildDoc, comp, absent, |comp.children|);
    var names := Column(NameAt, items, |items|);
    var kids := Column(ChildOf, items, |items|);
    DocNames(comp, absent);
    DocKids(comp, absent);
    ChildMapOfListed(comp.childrenMap, names, kids);
  }

  /** The header of a written composite reads back as written. */
  lemma DocHeader(name: string, comp: Composite, ref: AssetRef, absent: Child)
    requires IsNull(comp.parent) || comp.parent.kind == FolderKind
    ensures Header(CompositeDoc(name, comp, [], absent), NewComposite(ref)).ref == ref
    ensures Header(CompositeDoc(name, comp, [], absent), NewComposite(ref)).name == name
    ensures Header(CompositeDoc(name, comp, [], absent), NewComposite(ref)).root == comp.root
    ensures Header(CompositeDoc(name, comp, [], absent), NewComposite(ref)).properties == comp.properties
    ensures Equal(Header(CompositeDoc(name, comp, [], absent), NewComposite(ref)).parent, comp.parent)
  {
    CompositeDocFields(name, comp, absent);
    VariantToIntOfInt(comp.root);
    if !IsNull(comp.parent) {
      Uuids.FromToString(comp.parent.uuid);
    }
  }

  /** A composite written into an empty object and read back into a fresh
      composite has the same root, properties, child list and child map, the
      name it was written under, and an equal parent (a null parent is
      omitted and comes back null), provided its parent is null or a Folder
      ref and it satisfies RoundTrips. */
  lemma CompositeRoundTrip(name: string, comp: Composite, ref: AssetRef, absent: Child)
    requires RoundTrips(comp)
    requires IsNull(comp.parent) || comp.parent.kind == FolderKind
    ensures CompositeOf(CompositeDoc(name, comp, [], absent), NewComposite(ref)).ref == ref
    ensures CompositeOf(CompositeDoc(name, comp, [], absent), NewComposite(ref)).name == name
    ensures CompositeOf(CompositeDoc(name, comp, [], absent), NewComposite(ref)).root == comp.root
    ensures CompositeOf(CompositeDoc(name, comp, [], absent), NewComposite(ref)).properties == comp.properties
    ensures Equal(CompositeOf(CompositeDoc(name, comp, [], absent), NewComposite(ref)).parent, comp.parent)
    ensures CompositeOf(CompositeDoc(name, comp, [], absent), NewComposite(ref)).children == comp.children
    ensures CompositeOf(CompositeDoc(name, comp, [], absent), NewComposite(ref)).childrenMap == comp.childrenMap
  {
    CompositeDocFields(name, comp, absent);
    DocHeader(name, comp, ref, absent);
    DocNames(comp, absent);
    DocChildren(comp, absent);
  }
}
