/** The already-decoded project archive that ProjectModel::load reads, the
    zero-terminator scan it applies to an entry, and the map of the archive's
    ".png" images. Reading the tar container, parsing JSON text and decoding
    PNG data are outside this model: they arrive as values and parameters. */
module Archives {
  import opened Wrappers
  import opened Json
  import opened Assets
  import Text

  /** What opening and reading the archive file gives: a file that cannot be
      opened, a tarball that does not read, or the tarball's entries by name. */
  datatype Archive = Unopenable | Unreadable | Tar(entries: map<string, seq<bv8>>)

  /** QJsonDocument::fromJson's outcome: a parse error with its message, or a
      document with its root value (a document without data has a root that
      is not an object). */
  datatype Parsed = ParseError(message: string) | Document(root: Value)

  /** The first zero byte at or after from, if there is one. */
  function FirstZero(b: seq<bv8>, from: nat): (r: Option<nat>)
    requires from <= |b|
    ensures r.Some? ==> from <= r.value < |b| && b[r.value] == 0
    ensures r.Some? ==> forall i :: from <= i < r.value ==> b[i] != 0
    ensures r.None? ==> forall i :: from <= i < |b| ==> b[i] != 0
    decreases |b| - from
  {
    if from == |b| then None
    else if b[from] == 0 then Some(from)
    else FirstZero(b, from + 1)
  }

  /** The logical length load gives an entry: the index of its first zero
      byte, and 0 when it has none, so an entry without a terminator counts
      as empty just like one that starts with a zero byte. */
  function TextLength(b: seq<bv8>): (n: nat)
    ensures n <= |b|
    ensures n > 0 ==> n < |b| && b[n] == 0 && forall i :: 0 <= i < n ==> b[i] != 0
    ensures n == 0 <==> (|b| > 0 && b[0] == 0) || (forall i :: 0 <= i < |b| ==> b[i] != 0)
  {
    match FirstZero(b, 0)
    case Some(i) => i
    case None => 0
  }

  /** The bytes of an entry that load hands to the JSON parser. */
  function TextOf(b: seq<bv8>): seq<bv8> {
    b[..TextLength(b)]
  }

  /** The scan loop of load: stops at the first zero byte and leaves the
      length at 0 when there is none. */
  method ScanLength(b: seq<bv8>) returns (n: nat)
    ensures n == TextLength(b)
  {
    n := 0;
    var i := 0;
    while i < |b|
      invariant 0 <= i <= |b|
      invariant n == 0
      invariant FirstZero(b, i) == FirstZero(b, 0)
    {
      if b[i] == 0 {
        n := i;
        break;
      }
      i := i + 1;
    }
  }

  /** The image map of load: every entry whose name ends in ".png", decoded. */
  function PngImages(entries: map<string, seq<bv8>>, decode: seq<bv8> -> Image): map<string, Image> {
    map name | name in entries && Text.EndsWith(name, ".png") :: decode(entries[name])
  }

  /** The image loop of load, over the archive's entries in any order. */
  method CollectImages(entries: map<string, seq<bv8>>, decode: seq<bv8> -> Image) returns (images: map<string, Image>)
    ensures images.Keys == set name | name in entries && Text.EndsWith(name, ".png")
    ensures images == PngImages(entries, decode)
  {
    images := map[];
    var pending := entries.Keys;
    while pending != {}
      invariant pending <= entries.Keys
      invariant images.Keys == set name | name in entries && name !in pending && Text.EndsWith(name, ".png")
      invariant forall name :: name in images ==> images[name] == decode(entries[name])
      decreases |pending|
    {
      var name :| name in pending;
      if Text.EndsWith(name, ".png") {
        images := images[name := decode(entries[name])];
      }
      pending := pending - {name};
    }
  }
}
