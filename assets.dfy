/** The three asset entities the project model owns (Folder, Part with its
    animation modes, Composite with its child tree), as values. */
module Assets {
  import Uuids
  import opened AssetRefs
  import opened Json

  datatype Point = Point(x: Int32, y: Int32)

  /** A decoded raster; only its size matters to the model. */
  datatype Image = Image(width: int, height: int, pixels: seq<bv32>)

  /** Part::Mode: frame size, counts and rate, and per frame an anchor, an
      image and one point for every pivot slot (pivots[p][frame]). */
  datatype Mode = Mode(
    width: Int32, height: Int32, numFrames: Int32, numPivots: Int32, framesPerSecond: Int32,
    anchor: seq<Point>, frames: seq<Image>, pivots: seq<seq<Point>>)

  datatype Folder = Folder(ref: AssetRef, name: string, parent: AssetRef)

  datatype Part = Part(ref: AssetRef, name: string, parent: AssetRef, properties: string, modes: map<string, Mode>)

  /** Composite::Child: the parent child's index, the parent's pivot slot, the
      z-order, the part it shows, the indices of its children and its own
      position in the composite's child list. */
  datatype Child = Child(parent: Int32, parentPivot: Int32, z: Int32, part: AssetRef, children: seq<Int32>, index: nat)

  /** Composite: children gives the order of the child names, childrenMap the child of each name. */
  datatype Composite = Composite(
    ref: AssetRef, name: string, parent: AssetRef, properties: string, root: Int32,
    children: seq<string>, childrenMap: map<string, Child>)

  /** What ProjectModel::getAsset returns: any one of the three entities. */
  datatype Asset = FolderAsset(folder: Folder) | PartAsset(part: Part) | CompositeAsset(composite: Composite)
  {
    function Ref(): AssetRef {
      match this
      case FolderAsset(f) => f.ref
      case PartAsset(p) => p.ref
      case CompositeAsset(c) => c.ref
    }

    function Name(): string {
      match this
      case FolderAsset(f) => f.name
      case PartAsset(p) => p.name
      case CompositeAsset(c) => c.name
    }
  }

  /** The parent a document's "parent" string names: the mappers always
      make it a Folder ref (a string that is not a uuid gives the null uuid). */
  function ParentRef(obj: seq<Member>): (r: AssetRef)
    ensures r.kind == FolderKind
  {
    AssetRef(Uuids.FromString(ToStr(Get(obj, "parent"))), FolderKind)
  }

  /** A freshly created entity as load makes it before mapping its document:
      the given ref, an empty name and properties, a null parent, no modes and
      no children. */
  function NewFolder(ref: AssetRef): Folder {
    Folder(ref, "", NullRef)
  }

  function NewPart(ref: AssetRef): Part {
    Part(ref, "", NullRef, "", map[])
  }

  function NewComposite(ref: AssetRef): Composite {
    Composite(ref, "", NullRef, "", 0, [], map[])
  }
}
