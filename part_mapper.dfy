/** ProjectModel::JsonToPart: every object-valued key of a part document
    other than "properties" becomes an animation mode, read frame by frame
    against the map of decoded images. */
module PartMapper {
  import Text
  import opened AssetRefs
  import opened Json
  import opened Assets

  /** The key "p<N>x" or "p<N>y" of pivot N in a frame object (QString("p%1x").arg(p)). */
  function PivotKey(p: nat, axis: char): string {
    "p" + Text.DecimalString(p) + [axis]
  }

  /** Two pivots (or a pivot and an axis) never share a key. */
  lemma PivotKeysDistinct(p: nat, q: nat, a: char, b: char)
    requires PivotKey(p, a) == PivotKey(q, b)
    ensures p == q && a == b
  {
    var s, t := Text.DecimalString(p), Text.DecimalString(q);
    assert |s| == |t| && s == PivotKey(p, a)[1..|s| + 1] && t == PivotKey(q, b)[1..|t| + 1];
    Text.DecimalStringInjective(p, q);
  }

  function FrameAnchor(frame: Value): Point {
    var o := ToObject(frame);
    Point(VariantToInt(Get(o, "ax")), VariantToInt(Get(o, "ay")))
  }

  function FramePivot(frame: Value, p: nat): Point {
    var o := ToObject(frame);
    Point(VariantToInt(Get(o, PivotKey(p, 'x'))), VariantToInt(Get(o, PivotKey(p, 'y'))))
  }

  function FrameImageName(frame: Value): string {
    ToStr(Get(ToObject(frame), "image"))
  }

  function FrameArray(modeObj: seq<Member>): seq<Value> {
    ToArray(Get(modeObj, "frames"))
  }

  /** A mode with the header fields of its document and no frames yet. */
  function ModeHeader(modeObj: seq<Member>, maxPivots: nat): Mode {
    Mode(
      ToInt(Get(modeObj, "width"), 0), ToInt(Get(modeObj, "height"), 0),
      ToInt(Get(modeObj, "numFrames"), 0), ToInt(Get(modeObj, "numPivots"), 0),
      ToInt(Get(modeObj, "framesPerSecond"), 0),
      [], [], seq(maxPivots, _ => []))
  }

  /** What JsonToPart demands of a mode document: as many frames as
      numFrames says (Q_ASSERT); once there is a frame, a pivot count that
      indexes within the MAX_PIVOTS slots (the pivot loops index the slots
      with it); and for each frame an image that is in the map (it is
      dereferenced) and has the mode's size (Q_ASSERT). A mode without frames
      keeps whatever pivot count its document gives. */
  predicate ModeResolvable(modeObj: seq<Member>, images: map<string, Image>, maxPivots: nat) {
    var h := ModeHeader(modeObj, maxPivots);
    var frames := FrameArray(modeObj);
    && (|frames| > 0 ==> 0 <= h.numPivots <= maxPivots)
    && |frames| == h.numFrames
    && forall i :: 0 <= i < |frames| ==>
         && FrameImageName(frames[i]) in images
         && images[FrameImageName(frames[i])].width == h.width
         && images[FrameImageName(frames[i])].height == h.height
  }

  /** The first n frames' anchors, images, and points for pivot slot p. */
  function AnchorColumn(frames: seq<Value>, n: nat): seq<Point>
    requires n <= |frames|
  {
    seq(n, i requires 0 <= i < n => FrameAnchor(frames[i]))
  }

  function ImageColumn(frames: seq<Value>, n: nat, images: map<string, Image>): seq<Image>
    requires n <= |frames|
    requires forall i :: 0 <= i < n ==> FrameImageName(frames[i]) in images
  {
    seq(n, i requires 0 <= i < n => images[FrameImageName(frames[i])])
  }

  function PivotColumn(frames: seq<Value>, n: nat, p: nat, numPivots: int): seq<Point>
    requires n <= |frames|
  {
    seq(n, i requires 0 <= i < n => if p < numPivots then FramePivot(frames[i], p) else Point(0, 0))
  }

  function PivotTable(frames: seq<Value>, n: nat, maxPivots: nat, numPivots: int): seq<seq<Point>>
    requires n <= |frames|
  {
    seq(maxPivots, p requires 0 <= p < maxPivots => PivotColumn(frames, n, p, numPivots))
  }

  /** The structural invariants of a mode: one anchor, one image and one
      point per pivot slot for each of numFrames frames, a pivot count within
      the slots once there is a frame, unused pivot slots at (0,0), and every
      image of the mode's size. */
  ghost predicate WellFormedMode(m: Mode, maxPivots: nat) {
    && (m.numFrames > 0 ==> 0 <= m.numPivots <= maxPivots)
    && |m.anchor| == |m.frames| == m.numFrames
    && |m.pivots| == maxPivots
    && (forall p :: 0 <= p < maxPivots ==> |m.pivots[p]| == m.numFrames)
    && (forall p, i :: m.numPivots <= p < maxPivots && 0 <= i < m.numFrames ==> m.pivots[p][i] == Point(0, 0))
    && (forall i :: 0 <= i < m.numFrames ==> m.frames[i].width == m.width && m.frames[i].height == m.height)
  }

  /** The mode a mode document yields. */
  function ModeOf(modeObj: seq<Member>, images: map<string, Image>, maxPivots: nat): (m: Mode)
    requires ModeResolvable(modeObj, images, maxPivots)
    ensures WellFormedMode(m, maxPivots)
    ensures m.numFrames == |FrameArray(modeObj)|
  {
    var h := ModeHeader(modeObj, maxPivots);
    var frames := FrameArray(modeObj);
    var n := |frames|;
    h.(anchor := AnchorColumn(frames, n),
       frames := ImageColumn(frames, n, images),
       pivots := PivotTable(frames, n, maxPivots, h.numPivots))
  }

  /** A mode without frames is read whatever its pivot count, and keeps that
      count: no pivot slot is indexed. */
  lemma FramelessModeKeepsPivotCount(modeObj: seq<Member>, images: map<string, Image>, maxPivots: nat)
    requires FrameArray(modeObj) == [] && ToInt(Get(modeObj, "numFrames"), 0) == 0
    ensures ModeResolvable(modeObj, images, maxPivots)
    ensures ModeOf(modeObj, images, maxPivots).numPivots == ToInt(Get(modeObj, "numPivots"), 0)
    ensures ModeOf(modeObj, images, maxPivots).anchor == [] && ModeOf(modeObj, images, maxPivots).frames == []
  {
  }

  lemma ColumnsGrow(frames: seq<Value>, n: nat, images: map<string, Image>, p: nat, numPivots: int)
    requires n < |frames|
    requires forall i :: 0 <= i <= n ==> FrameImageName(frames[i]) in images
    ensures AnchorColumn(frames, n + 1) == AnchorColumn(frames, n) + [FrameAnchor(frames[n])]
    ensures ImageColumn(frames, n + 1, images) == ImageColumn(frames, n, images) + [images[FrameImageName(frames[n])]]
    ensures PivotColumn(frames, n + 1, p, numPivots)
         == PivotColumn(frames, n, p, numPivots) + [if p < numPivots then FramePivot(frames[n], p) else Point(0, 0)]
  {
  }

  /** The pivot part of one frame: push the frame's point onto each used
      pivot slot, then (0,0) onto each unused one. */
  method PushFramePivots(pivots: seq<seq<Point>>, frames: seq<Value>, frame: nat, numPivots: Int32, maxPivots: nat)
    returns (r: seq<seq<Point>>)
    requires frame < |frames| && 0 <= numPivots <= maxPivots
    requires pivots == PivotTable(frames, frame, maxPivots, numPivots)
    ensures r == PivotTable(frames, frame + 1, maxPivots, numPivots)
  {
    var frameObject := ToObject(frames[frame]);
    r := pivots;
    var p := 0;
    while p < numPivots
      invariant 0 <= p <= numPivots
      invariant |r| == maxPivots
      invariant forall q :: 0 <= q < p ==> r[q] == PivotColumn(frames, frame + 1, q, numPivots)
      invariant forall q :: p <= q < maxPivots ==> r[q] == PivotColumn(frames, frame, q, numPivots)
    {
      var px := VariantToInt(Get(frameObject, PivotKey(p, 'x')));
      var py := VariantToInt(Get(frameObject, PivotKey(p, 'y')));
      assert PivotColumn(frames, frame + 1, p, numPivots) == PivotColumn(frames, frame, p, numPivots) + [Point(px, py)];
      r := r[p := r[p] + [Point(px, py)]];
      p := p + 1;
    }
    p := numPivots;
    while p < maxPivots
      invariant numPivots <= p <= maxPivots
      invariant |r| == maxPivots
      invariant forall q :: 0 <= q < p ==> r[q] == PivotColumn(frames, frame + 1, q, numPivots)
      invariant forall q :: p <= q < maxPivots ==> r[q] == PivotColumn(frames, frame, q, numPivots)
    {
      assert PivotColumn(frames, frame + 1, p, numPivots) == PivotColumn(frames, frame, p, numPivots) + [Point(0, 0)];
      r := r[p := r[p] + [Point(0, 0)]];
      p := p + 1;
    }
  }

  /** Reads one mode document (the body of JsonToPart's per-mode block):
      for each frame, push its anchor and its image, then its pivot points. */
  method ReadMode(modeObject: seq<Member>, images: map<string, Image>, maxPivots: nat) returns (m: Mode)
    requires ModeResolvable(modeObject, images, maxPivots)
    ensures m == ModeOf(modeObject, images, maxPivots)
  {
    var width := ToInt(Get(modeObject, "width"), 0);
    var height := ToInt(Get(modeObject, "height"), 0);
    var numFrames := ToInt(Get(modeObject, "numFrames"), 0);
    var numPivots := ToInt(Get(modeObject, "numPivots"), 0);
    var framesPerSecond := ToInt(Get(modeObject, "framesPerSecond"), 0);
    m := Mode(width, height, numFrames, numPivots, framesPerSecond, [], [], seq(maxPivots, _ => []));

    var frameArray := FrameArray(modeObject);
    var frame := 0;
    assert m.pivots == PivotTable(frameArray, 0, maxPivots, numPivots);
    while frame < |frameArray|
      invariant 0 <= frame <= |frameArray|
      invariant m.width == width && m.height == height && m.numFrames == numFrames
      invariant m.numPivots == numPivots && m.framesPerSecond == framesPerSecond
      invariant m.anchor == AnchorColumn(frameArray, frame)
      invariant m.frames == ImageColumn(frameArray, frame, images)
      invariant m.pivots == PivotTable(frameArray, frame, maxPivots, numPivots)
    {
      ColumnsGrow(frameArray, frame, images, 0, numPivots);
      var frameObject := ToObject(frameArray[frame]);
      var ax := VariantToInt(Get(frameObject, "ax"));
      var ay := VariantToInt(Get(frameObject, "ay"));
      m := m.(anchor := m.anchor + [Point(ax, ay)]);

      var imageName := ToStr(Get(frameObject, "image"));
      var image := images[imageName];
      m := m.(frames := m.frames + [image]);

      var pivots := PushFramePivots(m.pivots, frameArray, frame, numPivots, maxPivots);
      m := m.(pivots := pivots);
      frame := frame + 1;
    }
  }

  /** A member that JsonToPart turns into a mode. */
  predicate IsModeMember(m: Member) {
    m.key != "properties" && ToObject(m.value) != []
  }

  /** What JsonToPart demands of a part document: every mode it holds is resolvable. */
  predicate PartResolvable(obj: seq<Member>, images: map<string, Image>, maxPivots: nat) {
    forall i :: 0 <= i < |obj| && IsModeMember(obj[i]) ==> ModeResolvable(ToObject(obj[i].value), images, maxPivots)
  }

  /** One member of a part document applied to the part: "properties" sets
      the properties string, an object-valued key adds (or replaces) the mode
      of that name, and anything else is skipped. */
  function ApplyMember(part: Part, m: Member, images: map<string, Image>, maxPivots: nat): (r: Part)
    requires IsModeMember(m) ==> ModeResolvable(ToObject(m.value), images, maxPivots)
    ensures r.ref == part.ref && r.name == part.name && r.parent == part.parent
    ensures r.modes.Keys == part.modes.Keys + (if IsModeMember(m) then {m.key} else {})
    ensures r.properties == if m.key == "properties" then ToStr(m.value) else part.properties
    ensures forall k :: k in r.modes && k !in part.modes ==> WellFormedMode(r.modes[k], maxPivots)
    ensures IsModeMember(m) ==> r.modes[m.key] == ModeOf(ToObject(m.value), images, maxPivots)
    ensures forall k :: k in part.modes && (k != m.key || !IsModeMember(m)) ==> r.modes[k] == part.modes[k]
  {
    if m.key == "properties" then
      part.(properties := ToStr(m.value))
    else if ToObject(m.value) != [] then
      part.(modes := part.modes[m.key := ModeOf(ToObject(m.value), images, maxPivots)])
    else
      part
  }

  /** The members of a part document applied in order. */
  function AddModes(part: Part, ms: seq<Member>, images: map<string, Image>, maxPivots: nat): (r: Part)
    requires PartResolvable(ms, images, maxPivots)
    ensures r.ref == part.ref && r.name == part.name && r.parent == part.parent
    ensures forall k :: k in part.modes ==> k in r.modes
    ensures forall k :: k in r.modes && k !in part.modes ==> WellFormedMode(r.modes[k], maxPivots)
  {
    if ms == [] then part
    else
      assert PartResolvable(ms[..|ms| - 1], images, maxPivots) by {
        forall i | 0 <= i < |ms| - 1 ensures ms[..|ms| - 1][i] == ms[i] { }
      }
      ApplyMember(AddModes(part, ms[..|ms| - 1], images, maxPivots), ms[|ms| - 1], images, maxPivots)
  }

  /** The part a document yields when mapped onto a given part: the name,
      the parent when present, then the members in order. */
  function PartOf(obj: seq<Member>, images: map<string, Image>, part: Part, maxPivots: nat): Part
    requires PartResolvable(obj, images, maxPivots)
  {
    var named := part.(name := ToStr(Get(obj, "name")));
    var parented := if Contains(obj, "parent") then named.(parent := ParentRef(obj)) else named;
    AddModes(parented, obj, images, maxPivots)
  }

  /** The body of JsonToPart's member loop for one member. */
  method ReadMember(part: Part, m: Member, images: map<string, Image>, maxPivots: nat) returns (r: Part)
    requires IsModeMember(m) ==> ModeResolvable(ToObject(m.value), images, maxPivots)
    ensures r == ApplyMember(part, m, images, maxPivots)
  {
    r := part;
    var modeName := m.key;
    if modeName == "properties" {
      r := r.(properties := ToStr(m.value));
    } else {
      var modeObject := ToObject(m.value);
      if modeObject != [] {
        var mode := ReadMode(modeObject, images, maxPivots);
        r := r.(modes := r.modes[modeName := mode]);
      }
    }
  }

  /** The member loop of JsonToPart: each member applied in order. */
  method ApplyMembers(part: Part, obj: seq<Member>, images: map<string, Image>, maxPivots: nat) returns (r: Part)
    requires PartResolvable(obj, images, maxPivots)
    ensures r == AddModes(part, obj, images, maxPivots)
  {
    r := part;
    var i := 0;
    while i < |obj|
      invariant 0 <= i <= |obj|
      invariant PartResolvable(obj[..i], images, maxPivots)
      invariant r == AddModes(part, obj[..i], images, maxPivots)
    {
      AddModesSnoc(part, obj[..i + 1], images, maxPivots);
      assert obj[..i + 1][..i] == obj[..i];
      r := ReadMember(r, obj[i], images, maxPivots);
      i := i + 1;
    }
    assert obj[..i] == obj;
  }

  /** JsonToPart: maps a part document onto the part, resolving frame images
      through the image map. */
  method JsonToPart(obj: seq<Member>, images: map<string, Image>, part: Part, maxPivots: nat) returns (r: Part)
    requires PartResolvable(obj, images, maxPivots)
    ensures r == PartOf(obj, images, part, maxPivots)
  {
    r := part.(name := ToStr(Get(obj, "name")));
    if Contains(obj, "parent") {
      r := r.(parent := ParentRef(obj));
    }
    r := ApplyMembers(r, obj, images, maxPivots);
  }

  /** The keys of the members that become modes. */
  function ModeNames(ms: seq<Member>): set<string> {
    set i | 0 <= i < |ms| && IsModeMember(ms[i]) :: ms[i].key
  }

  /** A resolvable document stays resolvable without its last member, and
      applying its members is applying all but the last, then the last. */
  lemma AddModesSnoc(part: Part, ms: seq<Member>, images: map<string, Image>, maxPivots: nat)
    requires PartResolvable(ms, images, maxPivots) && ms != []
    ensures PartResolvable(ms[..|ms| - 1], images, maxPivots)
    ensures AddModes(part, ms, images, maxPivots)
         == ApplyMember(AddModes(part, ms[..|ms| - 1], images, maxPivots), ms[|ms| - 1], images, maxPivots)
  {
    forall i | 0 <= i < |ms| - 1 ensures ms[..|ms| - 1][i] == ms[i] { }
  }

  lemma ModeNamesSnoc(ms: seq<Member>)
    requires ms != []
    ensures ModeNames(ms) == ModeNames(ms[..|ms| - 1]) + (if IsModeMember(ms[|ms| - 1]) then {ms[|ms| - 1].key} else {})
  {
    var init, last := ms[..|ms| - 1], ms[|ms| - 1];
    forall k | k in ModeNames(ms) ensures k in ModeNames(init) || (IsModeMember(last) && k == last.key) {
      var i :| 0 <= i < |ms| && IsModeMember(ms[i]) && ms[i].key == k;
      if i < |init| { assert init[i] == ms[i]; }
    }
    forall k | k in ModeNames(init) ensures k in ModeNames(ms) {
      var i :| 0 <= i < |init| && IsModeMember(init[i]) && init[i].key == k;
      assert ms[i] == init[i];
    }
  }

  /** A part's modes are its earlier modes plus exactly the keys of the
      object-valued members other than "properties"; keys such as "name" or
      "parent", whose values are strings, never become modes. */
  lemma {:induction false} ModeKeys(part: Part, ms: seq<Member>, images: map<string, Image>, maxPivots: nat)
    requires PartResolvable(ms, images, maxPivots)
    ensures AddModes(part, ms, images, maxPivots).modes.Keys == part.modes.Keys + ModeNames(ms)
  {
    if ms != [] {
      AddModesSnoc(part, ms, images, maxPivots);
      ModeKeys(part, ms[..|ms| - 1], images, maxPivots);
      ModeNamesSnoc(ms);
    }
  }

  /** The mode stored under a key is read from the last member with that key. */
  lemma {:induction false} ModeFromLastMember(part: Part, ms: seq<Member>, images: map<string, Image>, maxPivots: nat, i: nat)
    requires PartResolvable(ms, images, maxPivots)
    requires i < |ms| && IsModeMember(ms[i])
    requires forall j :: i < j < |ms| ==> ms[j].key != ms[i].key
    ensures ms[i].key in AddModes(part, ms, images, maxPivots).modes
    ensures AddModes(part, ms, images, maxPivots).modes[ms[i].key] == ModeOf(ToObject(ms[i].value), images, maxPivots)
  {
    AddModesSnoc(part, ms, images, maxPivots);
    var init := ms[..|ms| - 1];
    if i < |ms| - 1 {
      forall j | i < j < |init| ensures init[j].key != init[i].key {
        assert init[j] == ms[j];
      }
      ModeFromLastMember(part, init, images, maxPivots, i);
    }
  }

  /** Without a "properties" member the properties string is kept. */
  lemma {:induction false} PropertiesKept(part: Part, ms: seq<Member>, images: map<string, Image>, maxPivots: nat)
    requires PartResolvable(ms, images, maxPivots)
    requires forall i :: 0 <= i < |ms| ==> ms[i].key != "properties"
    ensures AddModes(part, ms, images, maxPivots).properties == part.properties
  {
    if ms != [] {
      AddModesSnoc(part, ms, images, maxPivots);
      var init := ms[..|ms| - 1];
      forall i | 0 <= i < |init| ensures init[i].key != "properties" {
        assert init[i] == ms[i];
      }
      PropertiesKept(part, init, images, maxPivots);
    }
  }

  /** The properties string comes from the last "properties" member. */
  lemma {:induction false} PropertiesFromLastMember(part: Part, ms: seq<Member>, images: map<string, Image>, maxPivots: nat, i: nat)
    requires PartResolvable(ms, images, maxPivots)
    requires i < |ms| && ms[i].key == "properties"
    requires forall j :: i < j < |ms| ==> ms[j].key != "properties"
    ensures AddModes(part, ms, images, maxPivots).properties == ToStr(ms[i].value)
  {
    AddModesSnoc(part, ms, images, maxPivots);
    var init := ms[..|ms| - 1];
    if i < |ms| - 1 {
      forall j | i < j < |init| ensures init[j].key != "properties" {
        assert init[j] == ms[j];
      }
      PropertiesFromLastMember(part, init, images, maxPivots, i);
    }
  }

  /** A part loaded into a fresh part keeps its ref, and every one of its
      modes satisfies the structural invariants. */
  lemma LoadedPartWellFormed(obj: seq<Member>, images: map<string, Image>, ref: AssetRef, maxPivots: nat)
    requires PartResolvable(obj, images, maxPivots)
    ensures PartOf(obj, images, NewPart(ref), maxPivots).ref == ref
    ensures forall k :: k in PartOf(obj, images, NewPart(ref), maxPivots).modes ==>
              WellFormedMode(PartOf(obj, images, NewPart(ref), maxPivots).modes[k], maxPivots)
  {
  }
}
