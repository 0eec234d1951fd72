// model_data_structures/src/models/stored_models.rs: the serialisable copy of
// a model. Equality and ordering look at the unique hash alone.
module StoredModels {
  import opened Wrappers
  import Sprites
  import Hitboxes
  import ModelRecord

  datatype StoredDisplayModel = StoredDisplayModel(
    uniqueHash: nat,
    position: nat,
    name: string,
    strata: nat,
    appearanceData: Sprites.Sprite,
    hitbox: Hitboxes.Hitbox)

  datatype Ordering = Less | Equal | Greater

  /// `StoredDisplayModel::new`: copies the model's fields.
  function New(m: ModelRecord.ModelData): (r: StoredDisplayModel)
    ensures r.uniqueHash == m.uniqueHash && r.position == m.framePosition && r.name == m.name
    ensures r.strata == m.strata && r.appearanceData == m.appearance && r.hitbox == m.hitbox
  {
    StoredDisplayModel(m.uniqueHash, m.framePosition, m.name, m.strata, m.appearance, m.hitbox)
  }

  /// `get_hash`: the value that alone decides equality.
  function GetHash(m: StoredDisplayModel): (r: nat)
    ensures forall n :: Eq(m, n) <==> r == n.uniqueHash
  {
    m.uniqueHash
  }

  /// `get_name`: a copy of the stored name.
  function GetName(m: StoredDisplayModel): (r: string)
    ensures r == m.name
  {
    m.name
  }

  /// `PartialEq::eq`.
  predicate Eq(a: StoredDisplayModel, b: StoredDisplayModel)
  {
    a.uniqueHash == b.uniqueHash
  }

  /// `Ord::cmp`: the ordering of the hashes.
  function Cmp(a: StoredDisplayModel, b: StoredDisplayModel): (r: Ordering)
    ensures r == Less <==> a.uniqueHash < b.uniqueHash
    ensures r == Greater <==> a.uniqueHash > b.uniqueHash
  {
    if a.uniqueHash < b.uniqueHash then Less
    else if a.uniqueHash > b.uniqueHash then Greater
    else Equal
  }

  /// `PartialOrd::partial_cmp`: always defined.
  function PartialCmp(a: StoredDisplayModel, b: StoredDisplayModel): (r: Option<Ordering>)
    ensures r.Some?
  {
    Some(Cmp(a, b))
  }

  function Reverse(o: Ordering): Ordering
  {
    match o
    case Less => Greater
    case Equal => Equal
    case Greater => Less
  }

  /// Equality is exactly the `Equal` ordering, and both are decided by the
  /// getter `get_hash`.
  lemma EqIffCmpEqual(a: StoredDisplayModel, b: StoredDisplayModel)
    ensures Eq(a, b) <==> Cmp(a, b) == Equal
    ensures Eq(a, b) <==> GetHash(a) == GetHash(b)
    ensures PartialCmp(a, b) == Some(Cmp(a, b))
  {
  }

  /// `cmp` is a total order: antisymmetric and transitive.
  lemma CmpIsTotalOrder(a: StoredDisplayModel, b: StoredDisplayModel, c: StoredDisplayModel)
    ensures Cmp(b, a) == Reverse(Cmp(a, b))
    ensures Cmp(a, b) == Less && Cmp(b, c) == Less ==> Cmp(a, c) == Less
    ensures Cmp(a, b) == Equal && Cmp(b, c) == Equal ==> Cmp(a, c) == Equal
  {
  }

  /// Two copies that differ in everything but the hash are still equal.
  lemma EqualityIgnoresContents(a: StoredDisplayModel, name: string, position: nat)
    ensures Eq(a, a.(name := name, position := position))
    ensures GetName(a.(name := name)) == name
  {
  }

  /// A copy made with `new` is equal to a copy of any model with the same
  /// hash, and keeps the model's name.
  lemma NewKeepsIdentity(m: ModelRecord.ModelData, n: ModelRecord.ModelData)
    ensures Eq(New(m), New(n)) <==> m.uniqueHash == n.uniqueHash
    ensures GetHash(New(m)) == m.uniqueHash && GetName(New(m)) == m.name
  {
  }
}
