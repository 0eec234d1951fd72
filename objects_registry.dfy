// src/screen/objects.rs: the registry of the old object engine. Objects are
// stored under a caller-chosen key; the strata index files each object's own
// unique hash.
module ObjectRegistry {
  import opened Wrappers
  import Config
  import opened ModelStorage

  /// The parts of an object's data that the registry reads. The object data
  /// type itself is not part of this model.
  datatype ObjectData = ObjectData(uniqueHash: nat, strata: nat)

  /// The errors the registry raises.
  datatype RegistryError = ObjectAlreadyExists | ObjectDoesntExist | IncorrectStrataRange(strata: nat)

  type Objects = map<nat, ObjectData>

  /// Every key stores the object with that key as its hash.
  predicate KeysAreHashes(objects: Objects)
  {
    forall k :: k in objects ==> objects[k].uniqueHash == k
  }

  /// `fix_strata_list` unwraps the object of every hash filed in 0..=100 and
  /// looks every stored object's hash up again.
  predicate FilesAreKeys(objects: Objects, stratas: StrataIndex)
  {
    (forall s, h :: s in stratas && s <= Config.MaxStrata && h in stratas[s] ==> h in objects) &&
    (forall k :: k in objects ==> objects[k].uniqueHash in objects)
  }

  /// Object `h` is filed under its own strata.
  predicate SitsInOwnSet(objects: Objects, stratas: StrataIndex, h: nat)
    requires h in objects
  {
    objects[h].strata in stratas && h in stratas[objects[h].strata]
  }

  /// Every object filed under a wrong strata below `n` is also filed under
  /// its own.
  predicate MisfiledAlsoOwnBelow(objects: Objects, stratas: StrataIndex, n: nat)
  {
    forall s, h :: s < n && s in stratas && h in stratas[s] && h in objects && objects[h].strata != s ==>
      SitsInOwnSet(objects, stratas, h)
  }

  /// The registry invariant: keys are hashes, every object is filed under its
  /// own strata and every filed hash is stored.
  predicate Registered(objects: Objects, stratas: StrataIndex)
  {
    KeysAreHashes(objects) &&
    (forall k :: k in objects ==> SitsInOwnSet(objects, stratas, k)) &&
    (forall s, h :: s in stratas && h in stratas[s] ==> h in objects)
  }

  class ObjectList {
    var objectStratas: StrataIndex
    var objects: Objects

    constructor New()
      ensures objects == map[] && objectStratas == map[]
      ensures Registered(objects, objectStratas)
    {
      objects := map[];
      objectStratas := map[];
    }

    /// `get_object`.
    function GetObject(key: nat): (r: Option<ObjectData>)
      reads this
      ensures r.Some? <==> key in objects
      ensures r.Some? ==> r.value == objects[key]
    {
      if key in objects then Some(objects[key]) else None
    }

    /// `get_strata_keys`.
    function GetStrataKeys(strata: nat): (r: Option<set<nat>>)
      reads this
      ensures r.Some? <==> strata in objectStratas
      ensures r.Some? ==> r.value == objectStratas[strata]
    {
      if strata in objectStratas then Some(objectStratas[strata]) else None
    }

    /// `get_object_keys`.
    function GetObjectKeys(): (r: set<nat>)
      reads this
      ensures forall k :: k in r <==> GetObject(k).Some?
    {
      objects.Keys
    }

    /// `insert_strata`: files the stored object's own hash under its strata.
    method InsertStrata(key: nat) returns (r: Result<Unit, RegistryError>)
      modifies this
      ensures objects == old(objects)
      ensures key !in objects ==> r == Err(ObjectDoesntExist) && objectStratas == old(objectStratas)
      ensures key in objects && Filed(old(objectStratas), objects[key].strata, objects[key].uniqueHash).Some? ==>
                r == Ok(Unit) && objectStratas == Filed(old(objectStratas), objects[key].strata, objects[key].uniqueHash).value
      ensures key in objects && Filed(old(objectStratas), objects[key].strata, objects[key].uniqueHash).None? ==>
                r == Err(IncorrectStrataRange(objects[key].strata)) && objectStratas == old(objectStratas)
    {
      var data := GetObject(key);
      if data.None? {
        return Err(ObjectDoesntExist);
      }
      var objectStrata := data.value.strata;
      var objectHash := data.value.uniqueHash;
      if objectStrata in objectStratas {
        objectStratas := objectStratas[objectStrata := objectStratas[objectStrata] + {objectHash}];
      } else if Config.CorrectStrataRange(objectStrata) {
        objectStratas := objectStratas[objectStrata := {objectHash}];
      } else {
        return Err(IncorrectStrataRange(objectStrata));
      }
      r := Ok(Unit);
    }

    /// `insert`: a fresh key is stored, then its object is filed; the object
    /// stays stored when filing fails.
    method Insert(key: nat, data: ObjectData) returns (r: Result<Unit, RegistryError>)
      modifies this
      ensures key in old(objects) ==>
                r == Err(ObjectAlreadyExists) && objects == old(objects) && objectStratas == old(objectStratas)
      ensures key !in old(objects) ==> objects == old(objects)[key := data]
      ensures key !in old(objects) && Filed(old(objectStratas), data.strata, data.uniqueHash).Some? ==>
                r == Ok(Unit) && objectStratas == Filed(old(objectStratas), data.strata, data.uniqueHash).value
      ensures key !in old(objects) && Filed(old(objectStratas), data.strata, data.uniqueHash).None? ==>
                r == Err(IncorrectStrataRange(data.strata)) && objectStratas == old(objectStratas)
      ensures old(Registered(objects, objectStratas)) && key !in old(objects) && key == data.uniqueHash &&
              Config.CorrectStrataRange(data.strata) ==>
                r == Ok(Unit) && Registered(objects, objectStratas)
    {
      if key in objects {
        return Err(ObjectAlreadyExists);
      }
      objects := objects[key := data];
      r := InsertStrata(key);
    }

    /// `change_object_strata`: after the range check on `newStrata`, the key
    /// is taken out of the set of the object's own strata and the object is
    /// filed there again; `newStrata` plays no further part.
    method ChangeObjectStrata(key: nat, newStrata: nat) returns (r: Result<Unit, RegistryError>)
      modifies this
      ensures objects == old(objects)
      ensures !Config.CorrectStrataRange(newStrata) ==>
                r == Err(IncorrectStrataRange(newStrata)) && objectStratas == old(objectStratas)
      ensures Config.CorrectStrataRange(newStrata) && !(key in objects && SitsInOwnSet(objects, old(objectStratas), key)) ==>
                r == Err(ObjectDoesntExist) && objectStratas == old(objectStratas)
      ensures Config.CorrectStrataRange(newStrata) && key in objects && SitsInOwnSet(objects, old(objectStratas), key) ==>
                var t := objects[key].strata;
                r == Ok(Unit) && objectStratas == old(objectStratas)[t := old(objectStratas)[t] - {key} + {objects[key].uniqueHash}]
    {
      if !Config.CorrectStrataRange(newStrata) {
        return Err(IncorrectStrataRange(newStrata));
      }
      if key in objects {
        var oldStrata := objects[key].strata;
        if oldStrata in objectStratas && key in objectStratas[oldStrata] {
          objectStratas := objectStratas[oldStrata := objectStratas[oldStrata] - {key}];
          r := InsertStrata(key);
          return;
        }
      }
      r := Err(ObjectDoesntExist);
    }

    /// `fix_strata_list`: scans strata 0..=100 and calls
    /// `change_object_strata` on every object filed under a strata other than
    /// its own. Because that call refiles under the object's own strata, a
    /// misfiled hash is never moved: when keys are hashes the index is left
    /// as it was, and the scan fails exactly when a misfiled object is not
    /// also filed under its own strata.
    method FixStrataList() returns (r: Result<Unit, RegistryError>)
      requires FilesAreKeys(objects, objectStratas)
      modifies this
      ensures objects == old(objects)
      ensures r.Ok? || r == Err(ObjectDoesntExist)
      ensures KeysAreHashes(objects) ==> objectStratas == old(objectStratas)
      ensures KeysAreHashes(objects) ==>
                (r.Ok? <==> MisfiledAlsoOwnBelow(objects, objectStratas, Config.MaxStrata + 1))
    {
      ghost var keysAreHashes := KeysAreHashes(objects);
      var s := 0;
      while s <= Config.MaxStrata
        invariant 0 <= s <= Config.MaxStrata + 1
        invariant objects == old(objects)
        invariant FilesAreKeys(objects, objectStratas)
        invariant keysAreHashes ==> objectStratas == old(objectStratas)
        invariant keysAreHashes ==> MisfiledAlsoOwnBelow(objects, objectStratas, s)
      {
        if s in objectStratas {
          r := FixOneStrata(s, keysAreHashes);
          if r.Err? {
            return;
          }
        }
        s := s + 1;
      }
      r := Ok(Unit);
    }

    /// The pass of `fix_strata_list` over the set of strata `s`, iterating
    /// over the hashes filed there when the pass starts.
    method FixOneStrata(s: nat, ghost keysAreHashes: bool) returns (r: Result<Unit, RegistryError>)
      requires s in objectStratas && s <= Config.MaxStrata
      requires FilesAreKeys(objects, objectStratas)
      requires keysAreHashes == KeysAreHashes(objects)
      requires keysAreHashes ==> MisfiledAlsoOwnBelow(objects, objectStratas, s)
      modifies this
      ensures objects == old(objects)
      ensures FilesAreKeys(objects, objectStratas)
      ensures r.Ok? || r == Err(ObjectDoesntExist)
      ensures keysAreHashes ==> objectStratas == old(objectStratas)
      ensures keysAreHashes && r.Ok? ==> MisfiledAlsoOwnBelow(objects, objectStratas, s + 1)
      ensures keysAreHashes && r.Err? ==> !MisfiledAlsoOwnBelow(objects, objectStratas, Config.MaxStrata + 1)
    {
      var snapshot := objectStratas[s];
      var pending := snapshot;
      ghost var start := objectStratas;
      PassStart(objects, start, s, keysAreHashes);
      while pending != {}
        invariant objects == old(objects)
        invariant PassState(objects, start, objectStratas, s, snapshot, pending, keysAreHashes)
        decreases |pending|
      {
        var key :| key in pending;
        var data := objects[key];
        if data.strata != s {
          ghost var before := objectStratas;
          r := ChangeObjectStrata(data.uniqueHash, s);
          if r.Err? {
            if keysAreHashes {
              assert !SitsInOwnSet(objects, objectStratas, key);
              MisfiledWitness(objects, objectStratas, s, key);
            }
            return;
          }
          PassStep(objects, start, before, s, snapshot, pending, keysAreHashes, key);
        } else {
          PassSkip(objects, start, objectStratas, s, snapshot, pending, keysAreHashes, key);
        }
        pending := pending - {key};
      }
      PassDone(objects, start, objectStratas, s, snapshot, keysAreHashes);
      r := Ok(Unit);
    }
  }

  /// The state of a pass over the set of strata `s` as it stood at `start`,
  /// with `pending` the hashes still to visit.
  ghost predicate PassState(objects: Objects, start: StrataIndex, stratas: StrataIndex, s: nat,
                            snapshot: set<nat>, pending: set<nat>, keysAreHashes: bool)
  {
    s <= Config.MaxStrata && s in start && snapshot == start[s]
    && pending <= snapshot
    && FilesAreKeys(objects, stratas)
    && (forall k :: k in snapshot ==> k in objects)
    && (keysAreHashes ==> KeysAreHashes(objects) && stratas == start && MisfiledAlsoOwnBelow(objects, stratas, s))
    && (keysAreHashes ==> forall h :: h in snapshot - pending && objects[h].strata != s ==>
          SitsInOwnSet(objects, stratas, h))
  }

  /// Re-filing a misfiled hash that sits in its own set keeps the pass's
  /// state; when keys are hashes it puts the hash back where it was.
  lemma PassStep(objects: Objects, start: StrataIndex, before: StrataIndex, s: nat,
                 snapshot: set<nat>, pending: set<nat>, keysAreHashes: bool, key: nat)
    requires PassState(objects, start, before, s, snapshot, pending, keysAreHashes) && key in pending
    requires objects[key].strata != s
    requires SitsInOwnSet(objects, before, objects[key].uniqueHash)
    ensures var k := objects[key].uniqueHash;
            var t := objects[k].strata;
            PassState(objects, start, before[t := before[t] - {k} + {objects[k].uniqueHash}], s, snapshot, pending - {key}, keysAreHashes)
  {
    var k := objects[key].uniqueHash;
    var t := objects[k].strata;
    var after := before[t := before[t] - {k} + {objects[k].uniqueHash}];
    if keysAreHashes {
      RefiledInPlace(before, t, k);
    }
    assert objects[k].uniqueHash in objects;
  }

  /// Visiting a hash filed under its own strata changes nothing.
  lemma PassSkip(objects: Objects, start: StrataIndex, stratas: StrataIndex, s: nat,
                 snapshot: set<nat>, pending: set<nat>, keysAreHashes: bool, key: nat)
    requires PassState(objects, start, stratas, s, snapshot, pending, keysAreHashes) && key in pending
    requires objects[key].strata == s
    ensures PassState(objects, start, stratas, s, snapshot, pending - {key}, keysAreHashes)
  {
  }

  /// A hash misfiled under `s` and missing from its own set breaks the
  /// property for the whole range.
  lemma MisfiledWitness(objects: Objects, stratas: StrataIndex, s: nat, key: nat)
    requires s <= Config.MaxStrata && s in stratas && key in stratas[s] && key in objects
    requires objects[key].strata != s && !SitsInOwnSet(objects, stratas, key)
    ensures !MisfiledAlsoOwnBelow(objects, stratas, Config.MaxStrata + 1)
  {
  }

  /// Before a pass every hash of the set is pending.
  lemma PassStart(objects: Objects, stratas: StrataIndex, s: nat, keysAreHashes: bool)
    requires s <= Config.MaxStrata && s in stratas && FilesAreKeys(objects, stratas)
    requires keysAreHashes == KeysAreHashes(objects)
    requires keysAreHashes ==> MisfiledAlsoOwnBelow(objects, stratas, s)
    ensures PassState(objects, stratas, stratas, s, stratas[s], stratas[s], keysAreHashes)
  {
  }

  /// After the pass over set `s`, the property holds up to `s`.
  lemma PassDone(objects: Objects, start: StrataIndex, stratas: StrataIndex, s: nat,
                 snapshot: set<nat>, keysAreHashes: bool)
    requires PassState(objects, start, stratas, s, snapshot, {}, keysAreHashes)
    ensures keysAreHashes ==> MisfiledAlsoOwnBelow(objects, stratas, s + 1)
  {
  }

  /// Taking a filed key out of its set and adding it back restores the index.
  lemma RefiledInPlace(stratas: StrataIndex, t: nat, key: nat)
    requires t in stratas && key in stratas[t]
    ensures stratas[t := stratas[t] - {key} + {key}] == stratas
  {
    assert stratas[t] - {key} + {key} == stratas[t];
  }

  /// The registry test: an out-of-range strata is refused before anything
  /// else is looked at.
  method ChangeToImpossibleStrata(data: ObjectData) returns (r: Result<Unit, RegistryError>)
    requires Config.CorrectStrataRange(data.strata)
    ensures r == Err(IncorrectStrataRange(101))
  {
    var list := new ObjectList.New();
    var inserted := list.Insert(data.uniqueHash, data);
    r := list.ChangeObjectStrata(data.uniqueHash, 101);
  }

  /// A misfiled object is not moved: an object filed only under strata `s`
  /// while its own strata is another makes `fix_strata_list` fail and leaves
  /// it where it was.
  method MisfiledObjectStays(data: ObjectData, s: nat)
    returns (r: Result<Unit, RegistryError>, stillThere: bool)
    requires s <= Config.MaxStrata && data.strata != s
    ensures r == Err(ObjectDoesntExist) && stillThere
  {
    var list := new ObjectList.New();
    list.objects := map[data.uniqueHash := data];
    list.objectStratas := map[s := {data.uniqueHash}];
    assert !MisfiledAlsoOwnBelow(list.objects, list.objectStratas, Config.MaxStrata + 1) by {
      assert data.uniqueHash in list.objectStratas[s];
      assert data.uniqueHash in list.objects && list.objects[data.uniqueHash].strata == data.strata;
      assert !SitsInOwnSet(list.objects, list.objectStratas, data.uniqueHash);
    }
    r := list.FixStrataList();
    var keys := list.GetStrataKeys(s);
    stillThere := keys.Some? && data.uniqueHash in keys.value;
  }
}
