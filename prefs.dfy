/** The preferences sidecar of a project archive: load reads "prefs.json"
    and hands each of its keys to the settings store, storing
    "background_colour" as an unsigned number read from its decimal string
    and every other key as the value itself. The settings store is external;
    the model gives the writes load makes to it, in order. */
module Prefs {
  import opened Wrappers
  import opened Json
  import opened Archives
  import Text

  /** What load stores under a key: an unsigned number, or the JSON value as a variant. */
  datatype Setting = Unsigned(n: nat) | Variant(v: Value)

  datatype SettingWrite = SettingWrite(key: string, setting: Setting)

  /** The members of the sidecar, when there is one that parses as an
      object; a parse error or a document that is not an object only logs a
      warning, so the load goes on without preferences. */
  function PrefsObject(entries: map<string, seq<bv8>>, parse: seq<bv8> -> Parsed): (r: Option<seq<Member>>)
    ensures r.Some? <==> "prefs.json" in entries && parse(TextOf(entries["prefs.json"])).Document?
                            && parse(TextOf(entries["prefs.json"])).root.Obj?
    ensures r.Some? ==> parse(TextOf(entries["prefs.json"])) == Document(Obj(r.value))
  {
    if "prefs.json" !in entries then None
    else
      match parse(TextOf(entries["prefs.json"]))
      case ParseError(_) => None
      case Document(root) => if root.Obj? then Some(root.members) else None
  }

  /** The stored background colour: the value's string read as an unsigned
      32-bit decimal number (0 when it is not one). */
  function BackgroundColour(v: Value): (n: nat)
    ensures n <= Text.UINT_MAX
  {
    Text.ToUInt(ToStr(v))
  }

  /** The write load makes for one member of the sidecar. */
  function WriteOf(m: Member): (w: SettingWrite)
    ensures w.key == m.key
    ensures m.key == "background_colour" ==> w.setting.Unsigned? && w.setting.n <= Text.UINT_MAX
    ensures m.key != "background_colour" ==> w.setting == Variant(m.value)
  {
    if m.key == "background_colour" then SettingWrite(m.key, Unsigned(BackgroundColour(m.value)))
    else SettingWrite(m.key, Variant(m.value))
  }

  /** The writes for the first n members of the sidecar, in order. */
  function Writes(ms: seq<Member>, n: nat): (r: seq<SettingWrite>)
    requires n <= |ms|
    ensures |r| == n
  {
    if n == 0 then [] else Writes(ms, n - 1) + [WriteOf(ms[n - 1])]
  }

  lemma {:induction false} WritesAt(ms: seq<Member>, n: nat, i: nat)
    requires i < n <= |ms|
    ensures Writes(ms, n)[i] == WriteOf(ms[i])
  {
    if i < n - 1 {
      WritesAt(ms, n - 1, i);
    }
  }

  /** All the writes load makes to the settings store: one per member of a
      well-formed sidecar, none otherwise. */
  function PrefsWrites(entries: map<string, seq<bv8>>, parse: seq<bv8> -> Parsed): seq<SettingWrite> {
    match PrefsObject(entries, parse)
    case None => []
    case Some(ms) => Writes(ms, |ms|)
  }

  /** The sidecar step of load. */
  method MergePrefs(entries: map<string, seq<bv8>>, parse: seq<bv8> -> Parsed) returns (writes: seq<SettingWrite>)
    ensures writes == PrefsWrites(entries, parse)
  {
    writes := [];
    if "prefs.json" !in entries {
      return;
    }
    var record := entries["prefs.json"];
    var length := ScanLength(record);
    var doc := parse(record[..length]);
    if doc.ParseError? || !doc.root.Obj? {
      return;
    }
    var settingsObj := doc.root.members;
    var i := 0;
    while i < |settingsObj|
      invariant 0 <= i <= |settingsObj|
      invariant writes == Writes(settingsObj, i)
    {
      var val := settingsObj[i].value;
      if settingsObj[i].key == "background_colour" {
        var col := Text.ToUInt(ToStr(val));
        writes := writes + [SettingWrite(settingsObj[i].key, Unsigned(col))];
      } else {
        writes := writes + [SettingWrite(settingsObj[i].key, Variant(val))];
      }
      i := i + 1;
    }
  }

  /** Every key of a well-formed sidecar is written, in the sidecar's order,
      and the background colour is written as an unsigned number. */
  lemma PrefsWritesKeys(entries: map<string, seq<bv8>>, parse: seq<bv8> -> Parsed)
    requires PrefsObject(entries, parse).Some?
    ensures |PrefsWrites(entries, parse)| == |PrefsObject(entries, parse).value|
    ensures forall i :: 0 <= i < |PrefsObject(entries, parse).value| ==>
              PrefsWrites(entries, parse)[i] == WriteOf(PrefsObject(entries, parse).value[i])
  {
    var ms := PrefsObject(entries, parse).value;
    forall i | 0 <= i < |ms|
      ensures PrefsWrites(entries, parse)[i] == WriteOf(ms[i])
    {
      WritesAt(ms, |ms|, i);
    }
  }

  /** A sidecar that is missing, does not parse, or is not an object makes
      no writes at all: those cases only log a warning. */
  lemma MalformedSidecarNoWrites(entries: map<string, seq<bv8>>, parse: seq<bv8> -> Parsed)
    requires "prefs.json" !in entries || parse(TextOf(entries["prefs.json"])).ParseError?
             || !parse(TextOf(entries["prefs.json"])).root.Obj?
    ensures PrefsWrites(entries, parse) == []
  {
  }

  /** A colour written as its decimal string reads back as itself, up to the
      largest unsigned 32-bit value (so no colour turns negative). */
  lemma BackgroundColourRoundTrip(n: nat)
    requires n <= Text.UINT_MAX
    ensures BackgroundColour(Str(Text.DecimalString(n))) == n
  {
    Text.DecimalStringValue(n);
  }
}
