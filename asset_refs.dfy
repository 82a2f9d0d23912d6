/** AssetRef: a typed opaque identifier, with the identity semantics of its
    operators in src/projectmodel.cpp (==, !=, < and qHash). */
module AssetRefs {
  import Uuids

  datatype AssetType = PartKind | CompositeKind | FolderKind

  datatype AssetRef = AssetRef(uuid: Uuids.Uuid, kind: AssetType)

  /** AssetRef::isNull: the identity is the null uuid. */
  predicate IsNull(r: AssetRef) {
    Uuids.IsNull(r.uuid)
  }

  /** The ref a default-constructed entity holds as its parent. Its kind is
      fixed by a header outside this model; operator== ignores the kind of a
      null ref, so nothing below depends on it. */
  const NullRef := AssetRef(Uuids.NilUuid, FolderKind)

  /** operator==: any two null refs are equal; otherwise uuid and kind must both match. */
  predicate Equal(a: AssetRef, b: AssetRef) {
    (IsNull(a) && IsNull(b)) || (a.uuid == b.uuid && a.kind == b.kind)
  }

  /** operator!= */
  predicate NotEqual(a: AssetRef, b: AssetRef) {
    !Equal(a, b)
  }

  /** operator<: compares the uuids only, in reverse. */
  predicate Less(a: AssetRef, b: AssetRef) {
    Uuids.Less(b.uuid, a.uuid)
  }

  /** qHash(const AssetRef&): the hash of the uuid alone. */
  function Hash(r: AssetRef): bv32 {
    Uuids.Hash(r.uuid)
  }

  /** The one representative of a ref's class under operator==: the key under
      which a hash keyed by AssetRef stores the ref. */
  function Canon(r: AssetRef): (c: AssetRef)
    ensures Equal(c, r)
  {
    if IsNull(r) then NullRef else r
  }

  /** operator== is an equivalence relation, so a hash keyed by it is well defined. */
  lemma EqualIsEquivalence(a: AssetRef, b: AssetRef, c: AssetRef)
    ensures Equal(a, a)
    ensures Equal(a, b) ==> Equal(b, a)
    ensures Equal(a, b) && Equal(b, c) ==> Equal(a, c)
  {
  }

  /** Two refs are equal exactly when they have the same representative. */
  lemma EqualIffSameCanon(a: AssetRef, b: AssetRef)
    ensures Equal(a, b) <==> Canon(a) == Canon(b)
  {
  }

  /** Equal refs share their uuid (the null uuid is a single value). */
  lemma EqualSameUuid(a: AssetRef, b: AssetRef)
    requires Equal(a, b)
    ensures a.uuid == b.uuid
  {
  }

  /** A non-null identity under two different kinds names two different assets. */
  lemma KindSeparatesRefs(a: AssetRef, b: AssetRef)
    requires !IsNull(a) && a.uuid == b.uuid && a.kind != b.kind
    ensures NotEqual(a, b) && NotEqual(b, a)
  {
  }

  /** Equal refs hash alike, as a hash keyed by AssetRef needs. */
  lemma EqualRefsHashEqual(a: AssetRef, b: AssetRef)
    requires Equal(a, b)
    ensures Hash(a) == Hash(b)
  {
    EqualSameUuid(a, b);
  }

  /** The order is a strict order in which refs are tied exactly when they
      share a uuid: it ignores the kind, so two tied refs may be unequal. */
  lemma LessIsStrictOrderOnUuids(a: AssetRef, b: AssetRef, c: AssetRef)
    ensures !Less(a, a)
    ensures Less(a, b) && Less(b, c) ==> Less(a, c)
    ensures (!Less(a, b) && !Less(b, a)) <==> a.uuid == b.uuid
  {
    Uuids.LessIsStrictTotalOrder(a.uuid, b.uuid, c.uuid);
    Uuids.LessIsStrictTotalOrder(c.uuid, b.uuid, a.uuid);
    Uuids.LessIsStrictTotalOrder(b.uuid, a.uuid, c.uuid);
  }

  /** Within one kind, the ties of operator< (the equivalence an ordered map
      keyed by AssetRef would look up by) are exactly the refs operator==
      equates; across kinds a tie can join refs that are unequal. */
  lemma TieIsEqualWithinKind(a: AssetRef, b: AssetRef)
    ensures a.kind == b.kind ==> ((!Less(a, b) && !Less(b, a)) <==> Equal(a, b))
    ensures !IsNull(a) && a.uuid == b.uuid && a.kind != b.kind ==> !Less(a, b) && !Less(b, a) && !Equal(a, b)
  {
    LessIsStrictOrderOnUuids(a, b, a);
  }

  /** Distinct non-null uuids compare the other way round from their uuids. */
  lemma LessReversesUuidOrder(a: AssetRef, b: AssetRef)
    requires a.uuid != b.uuid
    ensures Less(a, b) <==> !Uuids.Less(a.uuid, b.uuid)
  {
    Uuids.LessIsStrictTotalOrder(a.uuid, b.uuid, a.uuid);
  }
}
