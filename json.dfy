/** The JSON value model of QJsonValue / QJsonObject / QJsonArray, with the
    defaulting conversions the schema mappers use (toInt, toVariant().toInt(),
    toString, toObject, toArray). Text parsing is not part of this module. */
module Json {
  import Text

  /** A C++ int. */
  type Int32 = x: int | -0x8000_0000 <= x < 0x8000_0000

  /** A JSON value; Undefined is what a lookup of a missing key yields. */
  datatype Value =
    | Undefined
    | Null
    | Bool(b: bool)
    | Number(n: real)
    | Str(s: string)
    | Arr(items: seq<Value>)
    | Obj(members: seq<Member>)

  /** One key/value pair of an object; an object is the sequence of its members. */
  datatype Member = Member(key: string, value: Value)

  /** QJsonObject::contains */
  predicate Contains(obj: seq<Member>, key: string) {
    obj != [] && (obj[0].key == key || Contains(obj[1..], key))
  }

  /** QJsonObject::value / operator[] on a const object: the value under the
      key, Undefined when there is none. */
  function Get(obj: seq<Member>, key: string): (v: Value)
    ensures !Contains(obj, key) ==> v == Undefined
    ensures v != Undefined ==> Member(key, v) in obj
  {
    if obj == [] then Undefined
    else if obj[0].key == key then obj[0].value
    else
      var v := Get(obj[1..], key);
      assert obj == [obj[0]] + obj[1..];
      v
  }

  /** QJsonObject::insert: replaces the value of an existing key, otherwise adds the member. */
  function Insert(obj: seq<Member>, key: string, v: Value): (r: seq<Member>)
    ensures Contains(r, key)
    ensures !Contains(obj, key) ==> r == obj + [Member(key, v)]
  {
    if obj == [] then [Member(key, v)]
    else if obj[0].key == key then [Member(key, v)] + obj[1..]
    else
      var r := [obj[0]] + Insert(obj[1..], key, v);
      assert r[1..] == Insert(obj[1..], key, v);
      assert !Contains(obj, key) ==> obj == [obj[0]] + obj[1..];
      r
  }

  /** Inserting under one key leaves the presence of every other key as it was. */
  lemma {:induction false} ContainsInsertOther(obj: seq<Member>, key: string, v: Value, other: string)
    requires other != key
    ensures Contains(Insert(obj, key, v), other) == Contains(obj, other)
  {
    if obj != [] && obj[0].key != key {
      ContainsInsertOther(obj[1..], key, v, other);
    }
  }

  /** What was inserted is what a lookup of its key finds. */
  lemma {:induction false} GetInsertSame(obj: seq<Member>, key: string, v: Value)
    ensures Get(Insert(obj, key, v), key) == v
  {
    if obj != [] && obj[0].key != key {
      GetInsertSame(obj[1..], key, v);
    }
  }

  /** Inserting under one key leaves every other key's value as it was. */
  lemma {:induction false} GetInsertOther(obj: seq<Member>, key: string, v: Value, other: string)
    requires other != key
    ensures Get(Insert(obj, key, v), other) == Get(obj, other)
  {
    if obj != [] && obj[0].key != key {
      GetInsertOther(obj[1..], key, v, other);
    }
  }

  /** QJsonValue::toString(): the string of a string value, "" for any other value. */
  function ToStr(v: Value): string {
    if v.Str? then v.s else ""
  }

  /** QJsonValue::toObject(): the members of an object value, none for any other value. */
  function ToObject(v: Value): seq<Member> {
    if v.Obj? then v.members else []
  }

  /** QJsonValue::toArray(): the items of an array value, none for any other value. */
  function ToArray(v: Value): seq<Value> {
    if v.Arr? then v.items else []
  }

  predicate IsWhole(x: real) {
    x == x.Floor as real
  }

  /** QJsonValue::toInt(defaultValue): a number that is a whole C++ int reads
      as itself; everything else reads as the default. */
  function ToInt(v: Value, default: Int32): (r: Int32)
    ensures v.Number? && IsWhole(v.n) && -0x8000_0000 <= v.n.Floor < 0x8000_0000 ==> r == v.n.Floor
    ensures !v.Number? || !IsWhole(v.n) ==> r == default
  {
    if v.Number? && IsWhole(v.n) && -0x8000_0000 <= v.n.Floor < 0x8000_0000 then v.n.Floor else default
  }

  /** qRound64 as Qt 5 defines it: d + 0.5 truncated for d >= 0, and for
      negative d the sum qint64(d - qint64(d - 1) + 0.5) + qint64(d - 1),
      which shifts d to a positive value first. Both come to the nearest
      integer with halves rounded up (qRound64(-2.5) == -2). */
  function Round(x: real): (r: int)
    ensures x - (1 as real) / (2 as real) < r as real <= x + (1 as real) / (2 as real)
  {
    (x + (1 as real) / (2 as real)).Floor
  }

  /** The C++ conversion of a wider integer to int: the low 32 bits, as two's complement. */
  function Wrap32(n: int): (r: Int32)
    ensures -0x8000_0000 <= n < 0x8000_0000 ==> r == n
  {
    (n + 0x8000_0000) % 0x1_0000_0000 - 0x8000_0000
  }

  /** QJsonValue::toVariant().toInt(): a number is rounded to the nearest
      integer and cut to 32 bits, a boolean reads as 1 or 0, a string as the
      integer it spells (0 if none), anything else as 0. */
  function VariantToInt(v: Value): Int32 {
    match v
    case Number(x) => Wrap32(Round(x))
    case Bool(b) => if b then 1 else 0
    case Str(s) => Wrap32(Text.ToLongLong(s))
    case _ => 0
  }

  /** An int written as a JSON number reads back as itself through toInt. */
  lemma ToIntOfInt(x: Int32, default: Int32)
    ensures ToInt(Number(x as real), default) == x
  {
  }

  /** An int written as a JSON number reads back as itself through toVariant().toInt(). */
  lemma VariantToIntOfInt(x: Int32)
    ensures VariantToInt(Number(x as real)) == x
  {
  }
}
