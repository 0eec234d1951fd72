// src/screen/model_storage.rs: every model in the world keyed by its hash,
// and an index from strata to the set of hashes filed under it.
module ModelStorage {
  import opened Wrappers
  import Config
  import EngineErrors
  import ModelRecord

  type Models = map<nat, ModelRecord.ModelData>
  type StrataIndex = map<nat, set<nat>>

  /// The index with `key` added to the set of strata `t`: an existing set
  /// gains it, a missing one is created only for a strata in 0..=100.
  function Filed(stratas: StrataIndex, t: nat, key: nat): (r: Option<StrataIndex>)
    ensures r.Some? <==> t in stratas || Config.CorrectStrataRange(t)
    ensures r.Some? ==> r.value.Keys == stratas.Keys + {t} && r.value[t] == (if t in stratas then stratas[t] else {}) + {key}
    ensures r.Some? ==> forall s :: s in stratas && s != t ==> r.value[s] == stratas[s]
  {
    if t in stratas then Some(stratas[t := stratas[t] + {key}])
    else if Config.CorrectStrataRange(t) then Some(stratas[t := {key}])
    else None
  }

  /// The index with `key` taken out of the set of strata `s`; with
  /// `dropEmpty` the set is dropped once it is empty.
  function Unfiled(stratas: StrataIndex, s: nat, key: nat, dropEmpty: bool): (r: StrataIndex)
    requires s in stratas
    ensures s in r <==> !dropEmpty || stratas[s] - {key} != {}
    ensures s in r ==> r[s] == stratas[s] - {key}
    ensures forall s' :: s' != s ==> (s' in r <==> s' in stratas)
    ensures forall s' :: s' in stratas && s' != s ==> r[s'] == stratas[s']
  {
    if dropEmpty && stratas[s] - {key} == {} then stratas - {s} else stratas[s := stratas[s] - {key}]
  }

  /// Every stored model is filed under its own strata.
  predicate ModelsAreFiled(models: Models, stratas: StrataIndex)
  {
    forall h :: h in models ==> models[h].strata in stratas && h in stratas[models[h].strata]
  }

  /// No strata set is empty.
  predicate SetsAreNonEmpty(stratas: StrataIndex)
  {
    forall s :: s in stratas ==> stratas[s] != {}
  }

  /// Every hash in a set below strata `n` is a stored model.
  predicate FilesAreStoredBelow(models: Models, stratas: StrataIndex, n: nat)
  {
    forall s, h :: s in stratas && s < n && h in stratas[s] ==> h in models
  }

  /// Every hash in a set is a stored model whose strata is that set's.
  predicate FilesAreCorrect(models: Models, stratas: StrataIndex)
  {
    forall s, h :: s in stratas && h in stratas[s] ==> h in models && models[h].strata == s
  }

  /// Every hash in a set below strata `n` belongs to a model of that strata.
  predicate FilesAreCorrectBelow(models: Models, stratas: StrataIndex, n: nat)
  {
    forall s, h :: s in stratas && s < n && h in stratas[s] ==> h in models && models[h].strata == s
  }

  /// Every hash that sat in a set below strata `n` of `before` is filed
  /// under its model's strata in `after`.
  predicate RelocatedBelow(models: Models, before: StrataIndex, after: StrataIndex, n: nat)
  {
    forall s, h :: s in before && s < n && h in before[s] ==>
      h in models && models[h].strata in after && h in after[models[h].strata]
  }

  /// From strata `n` up, `after` keeps every set and hash of `before`, and
  /// whatever it adds is filed under its model's own strata.
  predicate OnlyAddsFrom(models: Models, before: StrataIndex, after: StrataIndex, n: nat)
  {
    (forall s :: s in before && n <= s ==> s in after && before[s] <= after[s])
    && (forall s, h :: s in after && n <= s && h in after[s] && !(s in before && h in before[s]) ==>
          h in models && models[h].strata == s)
  }

  /// Every hash filed under some strata of the index.
  ghost function Hashes(stratas: StrataIndex): set<nat>
  {
    set s, h | s in stratas && h in stratas[s] :: h
  }

  /// Every hash filed in `after` was filed under some strata in `before`.
  ghost predicate FiledBefore(before: StrataIndex, after: StrataIndex)
  {
    Hashes(after) <= Hashes(before)
  }

  class InternalModels {
    var modelStratas: StrataIndex
    var models: Models

    /// The registry's invariant: the two maps describe the same models.
    predicate Valid()
      reads this
    {
      ModelsAreFiled(models, modelStratas) && SetsAreNonEmpty(modelStratas)
      && FilesAreCorrect(models, modelStratas)
    }

    /// Every model is stored under its own hash, as `insert` stores it; on
    /// such a registry filing a key files the model's hash, as the source's
    /// `insert_strata` does.
    predicate KeysAreHashes()
      reads this
    {
      forall h :: h in models ==> models[h].uniqueHash == h
    }

    /// `InternalModels::new`.
    constructor New()
      ensures models == map[] && modelStratas == map[]
      ensures Valid() && KeysAreHashes()
    {
      models := map[];
      modelStratas := map[];
    }

    /// `get_model`.
    function GetModel(key: nat): (r: Option<ModelRecord.ModelData>)
      reads this
      ensures r.Some? <==> key in models
      ensures r.Some? ==> r.value == models[key]
    {
      if key in models then Some(models[key]) else None
    }

    /// `get_strata_keys`.
    function GetStrataKeys(strata: nat): (r: Option<set<nat>>)
      reads this
      ensures r.Some? <==> strata in modelStratas
      ensures r.Some? ==> r.value == modelStratas[strata]
    {
      if strata in modelStratas then Some(modelStratas[strata]) else None
    }

    /// `get_model_keys`.
    function GetModelKeys(): (r: set<nat>)
      reads this
      ensures forall k :: k in r <==> GetModel(k).Some?
    {
      models.Keys
    }

    /// `model_exists`: stored, and filed under the model's current strata.
    predicate ModelExists(key: nat)
      reads this
    {
      match GetModel(key)
      case None => false
      case Some(model) =>
        match GetStrataKeys(model.strata)
        case None => false
        case Some(keys) => key in keys
    }

    /// On a valid registry a model exists exactly when it is stored.
    lemma ModelExistsIffStored(key: nat)
      requires Valid()
      ensures ModelExists(key) <==> key in models
    {
    }

    /// `insert_strata`: files a stored model under its current strata. The
    /// source files `model.get_unique_hash()`; this files the key, which is
    /// the same hash on every registry where `KeysAreHashes()` holds.
    method InsertStrata(key: nat) returns (r: Result<Unit, EngineErrors.ModelError>)
      modifies this
      ensures models == old(models)
      ensures key !in models ==> r == Err(EngineErrors.ModelDoesntExist) && modelStratas == old(modelStratas)
      ensures key in models && Filed(old(modelStratas), models[key].strata, key).Some? ==>
                r == Ok(Unit) && modelStratas == Filed(old(modelStratas), models[key].strata, key).value
      ensures key in models && Filed(old(modelStratas), models[key].strata, key).None? ==>
                r == Err(EngineErrors.IncorrectStrataRange(models[key].strata)) && modelStratas == old(modelStratas)
    {
      var model := GetModel(key);
      if model.None? {
        return Err(EngineErrors.ModelDoesntExist);
      }
      var modelStrata := model.value.strata;
      if modelStrata in modelStratas {
        modelStratas := modelStratas[modelStrata := modelStratas[modelStrata] + {key}];
      } else if Config.CorrectStrataRange(modelStrata) {
        modelStratas := modelStratas[modelStrata := {key}];
      } else {
        return Err(EngineErrors.IncorrectStrataRange(modelStrata));
      }
      r := Ok(Unit);
    }

    /// `insert`: stores the model, then files it. A strata outside 0..=100
    /// with no set yet is reported after the model was stored.
    method Insert(model: ModelRecord.ModelData) returns (r: Result<Unit, EngineErrors.ModelError>)
      modifies this
      ensures var key := model.uniqueHash;
              key in old(models) ==>
                r == Err(EngineErrors.ModelAlreadyExists) && models == old(models) && modelStratas == old(modelStratas)
      ensures var key := model.uniqueHash;
              key !in old(models) ==> models == old(models)[key := model]
      ensures old(KeysAreHashes()) ==> KeysAreHashes()
      ensures var key := model.uniqueHash;
              key !in old(models) && Filed(old(modelStratas), model.strata, key).Some? ==>
                r == Ok(Unit) && modelStratas == Filed(old(modelStratas), model.strata, key).value
      ensures var key := model.uniqueHash;
              key !in old(models) && Filed(old(modelStratas), model.strata, key).None? ==>
                r == Err(EngineErrors.IncorrectStrataRange(model.strata)) && modelStratas == old(modelStratas)
      ensures old(Valid()) && model.uniqueHash !in old(models) && Config.CorrectStrataRange(model.strata) ==>
                r.Ok? && Valid()
    {
      var key := model.uniqueHash;
      if key in models {
        return Err(EngineErrors.ModelAlreadyExists);
      }
      models := models[key := model];
      r := InsertStrata(key);
    }

    /// `remove_mention_of`: drops the model, then its hash from the set of
    /// its strata (and the set once empty). With no set for that strata the
    /// model is still dropped but nothing is returned.
    method RemoveMentionOf(key: nat) returns (r: Option<ModelRecord.ModelData>)
      modifies this
      ensures key !in old(models) ==> r.None? && models == old(models) && modelStratas == old(modelStratas)
      ensures key in old(models) ==> models == old(models) - {key}
      ensures key in old(models) && old(models)[key].strata !in old(modelStratas) ==>
                r.None? && modelStratas == old(modelStratas)
      ensures key in old(models) && old(models)[key].strata in old(modelStratas) ==>
                r == Some(old(models)[key])
                && modelStratas == Unfiled(old(modelStratas), old(models)[key].strata, key, true)
    {
      if key !in models {
        return None;
      }
      var model := models[key];
      models := models - {key};
      var modelStrata := model.strata;
      if modelStrata !in modelStratas {
        return None;
      }
      modelStratas := modelStratas[modelStrata := modelStratas[modelStrata] - {key}];
      if modelStratas[modelStrata] == {} {
        modelStratas := modelStratas - {modelStrata};
      }
      r := Some(model);
    }

    /// Removing a stored model from a valid registry keeps it valid.
    lemma UnfiledStaysValid(key: nat)
      requires Valid() && key in models
      ensures ModelsAreFiled(models - {key}, Unfiled(modelStratas, models[key].strata, key, true))
      ensures SetsAreNonEmpty(Unfiled(modelStratas, models[key].strata, key, true))
      ensures FilesAreCorrect(models - {key}, Unfiled(modelStratas, models[key].strata, key, true))
    {
      var t := models[key].strata;
      var after := Unfiled(modelStratas, t, key, true);
      forall h | h in models - {key}
        ensures models[h].strata in after && h in after[models[h].strata]
      {
        if models[h].strata == t {
          assert h in modelStratas[t] - {key};
        }
      }
    }

    /// `fix_model_strata`: after checking the new strata's range, takes the
    /// hash out of the old set and files it again under the model's own
    /// strata (`new_strata` is only range-checked).
    method FixModelStrata(key: nat, oldStrata: nat, newStrata: nat) returns (r: Result<Unit, EngineErrors.ModelError>)
      modifies this
      ensures models == old(models)
      ensures !Config.CorrectStrataRange(newStrata) ==>
                r == Err(EngineErrors.IncorrectStrataRange(newStrata)) && modelStratas == old(modelStratas)
      ensures Config.CorrectStrataRange(newStrata) && !(oldStrata in old(modelStratas) && key in old(modelStratas)[oldStrata]) ==>
                r == Err(EngineErrors.ModelDoesntExist) && modelStratas == old(modelStratas)
      ensures Config.CorrectStrataRange(newStrata) && oldStrata in old(modelStratas) && key in old(modelStratas)[oldStrata] ==>
                var unfiled := Unfiled(old(modelStratas), oldStrata, key, true);
                if key !in models then r == Err(EngineErrors.ModelDoesntExist) && modelStratas == unfiled
                else if Filed(unfiled, models[key].strata, key).None?
                then r == Err(EngineErrors.IncorrectStrataRange(models[key].strata)) && modelStratas == unfiled
                else r == Ok(Unit) && modelStratas == Filed(unfiled, models[key].strata, key).value
    {
      if !Config.CorrectStrataRange(newStrata) {
        return Err(EngineErrors.IncorrectStrataRange(newStrata));
      }
      if oldStrata in modelStratas && key in modelStratas[oldStrata] {
        modelStratas := modelStratas[oldStrata := modelStratas[oldStrata] - {key}];
        if modelStratas[oldStrata] == {} {
          modelStratas := modelStratas - {oldStrata};
        }
        r := InsertStrata(key);
        return;
      }
      r := Err(EngineErrors.ModelDoesntExist);
    }

    /// `remove`: a model that is not found where `model_exists` looks has
    /// the strata index repaired first (returning nothing if that fails);
    /// then every mention of it is removed.
    method Remove(key: nat) returns (r: Option<ModelRecord.ModelData>)
      requires ModelExists(key) || FilesAreStoredBelow(models, modelStratas, Config.MaxStrata + 1)
      modifies this
      ensures key !in old(models) ==> r.None? && models == old(models)
      ensures r.Some? ==> key in old(models) && r.value == old(models)[key] && models == old(models) - {key}
      ensures old(Valid()) ==> r == old(GetModel(key)) && models == old(models) - {key} && Valid()
    {
      if ModelExists(key) {
        if Valid() {
          UnfiledStaysValid(key);
        }
        r := RemoveMentionOf(key);
      } else {
        var fixed := FixStrataList();
        if fixed.Err? {
          return None;
        }
        r := RemoveMentionOf(key);
      }
    }

    /// `fix_strata_list`: for each strata 0..=100 in turn, every hash filed
    /// there whose model now has another strata is moved to that strata's
    /// set. The hashes of one set are visited in no fixed order, as in a
    /// `HashSet`. A hash filed under a strata 0..=100 must be stored, or
    /// the source panics.
    method FixStrataList() returns (r: Result<Unit, EngineErrors.ModelError>)
      requires FilesAreStoredBelow(models, modelStratas, Config.MaxStrata + 1)
      modifies this
      ensures models == old(models)
      ensures r.Err? ==> r.error.IncorrectStrataRange? && !Config.CorrectStrataRange(r.error.strata)
      ensures r.Err? ==> exists h :: h in models && models[h].strata == r.error.strata
      ensures r.Ok? ==> FilesAreCorrectBelow(models, modelStratas, Config.MaxStrata + 1)
      ensures r.Ok? ==> RelocatedBelow(models, old(modelStratas), modelStratas, Config.MaxStrata + 1)
      ensures r.Ok? ==> OnlyAddsFrom(models, old(modelStratas), modelStratas, Config.MaxStrata + 1)
      ensures r.Ok? ==> FiledBefore(old(modelStratas), modelStratas)
      ensures old(FilesAreCorrectBelow(models, modelStratas, Config.MaxStrata + 1)) ==>
                r.Ok? && modelStratas == old(modelStratas)
      ensures old(SetsAreNonEmpty(modelStratas)) ==> SetsAreNonEmpty(modelStratas)
    {
      ghost var orig := modelStratas;
      ghost var originallyCorrect := FilesAreCorrectBelow(models, modelStratas, Config.MaxStrata + 1);
      OuterStart(models, orig);
      FiledBeforeItself(orig);
      var s := 0;
      while s <= Config.MaxStrata
        invariant 0 <= s <= Config.MaxStrata + 1
        invariant models == old(models)
        invariant OuterProgress(models, orig, modelStratas, s)
        invariant FiledBefore(orig, modelStratas)
        invariant originallyCorrect ==> modelStratas == orig
        invariant SetsAreNonEmpty(orig) ==> SetsAreNonEmpty(modelStratas)
      {
        ghost var before := modelStratas;
        r := FixStrataStep(s, orig, originallyCorrect);
        if r.Err? {
          return;
        }
        FiledBeforeTrans(orig, before, modelStratas);
        s := s + 1;
      }
      r := Ok(Unit);
    }

    /// Strata `s` of `fix_strata_list`: its set, if there is one, is fixed.
    method FixStrataStep(s: nat, ghost orig: StrataIndex, ghost originallyCorrect: bool)
      returns (r: Result<Unit, EngineErrors.ModelError>)
      requires s <= Config.MaxStrata
      requires OuterProgress(models, orig, modelStratas, s)
      requires originallyCorrect == FilesAreCorrectBelow(models, orig, Config.MaxStrata + 1)
      requires originallyCorrect ==> modelStratas == orig
      modifies this
      ensures models == old(models)
      ensures r.Err? ==> r.error.IncorrectStrataRange? && !Config.CorrectStrataRange(r.error.strata)
      ensures r.Err? ==> exists h :: h in models && models[h].strata == r.error.strata
      ensures r.Ok? ==> OuterProgress(models, orig, modelStratas, s + 1)
      ensures r.Ok? ==> FiledBefore(old(modelStratas), modelStratas)
      ensures originallyCorrect ==> r.Ok? && modelStratas == orig
      ensures SetsAreNonEmpty(old(modelStratas)) ==> SetsAreNonEmpty(modelStratas)
    {
      if s in modelStratas {
        if originallyCorrect {
          CorrectSetNeedsNoPass(models, orig, s);
        }
        r := FixOneStrata(s, orig);
      } else {
        OuterSkip(models, orig, modelStratas, s);
        FiledBeforeItself(modelStratas);
        r := Ok(Unit);
      }
    }

    /// One pass of `fix_strata_list`: the hashes of set `s` whose model
    /// has another strata are collected, then re-filed one at a time.
    method FixOneStrata(s: nat, ghost orig: StrataIndex) returns (r: Result<Unit, EngineErrors.ModelError>)
      requires s in modelStratas && Config.CorrectStrataRange(s)
      requires OuterProgress(models, orig, modelStratas, s)
      modifies this
      ensures models == old(models)
      ensures r.Err? ==> r.error.IncorrectStrataRange? && !Config.CorrectStrataRange(r.error.strata)
      ensures r.Err? ==> exists h :: h in models && models[h].strata == r.error.strata
      ensures r.Ok? ==> OuterProgress(models, orig, modelStratas, s + 1)
      ensures r.Ok? ==> FiledBefore(old(modelStratas), modelStratas)
      ensures (forall h :: h in old(modelStratas)[s] ==> models[h].strata == s) ==>
                r.Ok? && modelStratas == old(modelStratas)
      ensures SetsAreNonEmpty(old(modelStratas)) ==> SetsAreNonEmpty(modelStratas)
    {
      ghost var start := modelStratas;
      var misfiled := set h | h in modelStratas[s] && models[h].strata != s;
      var pending := misfiled;
      if forall h :: h in start[s] ==> models[h].strata == s {
        assert misfiled == {};
      }
      InnerStart(models, orig, start, s, misfiled, true);
      FiledBeforeItself(start);
      while pending != {}
        invariant models == old(models)
        invariant InnerProgress(models, orig, start, modelStratas, s, misfiled, pending, true)
        invariant FiledBefore(start, modelStratas)
        decreases |pending|
      {
        var h :| h in pending;
        ghost var before := modelStratas;
        r := FixModelStrata(h, s, s);
        if r.Err? {
          assert h in models && models[h].strata == r.error.strata;
          return;
        }
        InnerStep(models, orig, start, before, s, misfiled, pending, h, true);
        RefiledStep(models, start, before, s, h, true);
        pending := pending - {h};
      }
      InnerDone(models, orig, start, modelStratas, s, misfiled, true);
      r := Ok(Unit);
    }
  }

  /// The state of `fix_strata_list` before visiting strata `n`.
  predicate OuterProgress(models: Models, orig: StrataIndex, stratas: StrataIndex, n: nat)
  {
    FilesAreStoredBelow(models, stratas, Config.MaxStrata + 1)
    && FilesAreCorrectBelow(models, stratas, n)
    && RelocatedBelow(models, orig, stratas, n)
    && OnlyAddsFrom(models, orig, stratas, n)
  }

  /// The state of one pass over the set of strata `s`, with `pending` the
  /// misfiled hashes still to move.
  predicate InnerProgress(models: Models, orig: StrataIndex, start: StrataIndex, stratas: StrataIndex,
                          s: nat, misfiled: set<nat>, pending: set<nat>, drop: bool)
  {
    s in start
    && (forall h :: h in start[s] ==> h in models)
    && misfiled == (set h | h in start[s] && models[h].strata != s)
    && pending <= misfiled
    && (pending != {} ==> s in stratas && pending <= stratas[s])
    && (s in stratas ==> stratas[s] == start[s] - (misfiled - pending))
    && (s !in stratas ==> start[s] - (misfiled - pending) == {})
    && OuterProgress(models, orig, start, s)
    && FilesAreStoredBelow(models, stratas, Config.MaxStrata + 1)
    && FilesAreCorrectBelow(models, stratas, s)
    && RelocatedBelow(models, orig, stratas, s)
    && OnlyAddsFrom(models, orig, stratas, s + 1)
    && (forall h :: h in misfiled - pending ==> models[h].strata in stratas && h in stratas[models[h].strata])
    && (drop && SetsAreNonEmpty(start) ==> SetsAreNonEmpty(stratas))
    && (pending == misfiled ==> stratas == start)
  }

  /// Before the first pass nothing is fixed and nothing has moved.
  lemma OuterStart(models: Models, stratas: StrataIndex)
    requires FilesAreStoredBelow(models, stratas, Config.MaxStrata + 1)
    ensures OuterProgress(models, stratas, stratas, 0)
  {
  }

  lemma FiledBeforeItself(stratas: StrataIndex)
    ensures FiledBefore(stratas, stratas)
  {
  }

  lemma FiledBeforeTrans(a: StrataIndex, b: StrataIndex, c: StrataIndex)
    requires FiledBefore(a, b) && FiledBefore(b, c)
    ensures FiledBefore(a, c)
  {
  }

  /// Before a pass over set `s` every misfiled hash is still pending.
  lemma InnerStart(models: Models, orig: StrataIndex, stratas: StrataIndex, s: nat, misfiled: set<nat>, drop: bool)
    requires s in stratas && Config.CorrectStrataRange(s) && OuterProgress(models, orig, stratas, s)
    requires misfiled == (set h | h in stratas[s] && models[h].strata != s)
    ensures InnerProgress(models, orig, stratas, stratas, s, misfiled, misfiled, drop)
  {
  }

  /// In a correctly filed index no set holds a misfiled hash.
  lemma CorrectSetNeedsNoPass(models: Models, stratas: StrataIndex, s: nat)
    requires FilesAreCorrectBelow(models, stratas, Config.MaxStrata + 1)
    requires s in stratas && Config.CorrectStrataRange(s)
    ensures forall h :: h in stratas[s] ==> models[h].strata == s
  {
  }

  /// In a correctly filed index without empty sets, every set within
  /// 0..=100 names a model of its strata.
  lemma FiledSetHasModel(models: Models, stratas: StrataIndex, s: nat)
    requires FilesAreCorrectBelow(models, stratas, Config.MaxStrata + 1) && SetsAreNonEmpty(stratas)
    requires Config.CorrectStrataRange(s)
    ensures s in stratas ==> exists h :: h in models && models[h].strata == s
  {
    if s in stratas {
      var h :| h in stratas[s];
      assert h in models && models[h].strata == s;
    }
  }

  /// A strata with no set needs no pass.
  lemma OuterSkip(models: Models, orig: StrataIndex, stratas: StrataIndex, s: nat)
    requires OuterProgress(models, orig, stratas, s)
    requires s !in stratas
    ensures OuterProgress(models, orig, stratas, s + 1)
  {
    assert s !in orig;
  }

  /// Moving one misfiled hash keeps the pass's state.
  lemma InnerStep(models: Models, orig: StrataIndex, start: StrataIndex, before: StrataIndex,
                  s: nat, misfiled: set<nat>, pending: set<nat>, h: nat, drop: bool)
    requires InnerProgress(models, orig, start, before, s, misfiled, pending, drop)
    requires h in pending
    requires Filed(Unfiled(before, s, h, drop), models[h].strata, h).Some?
    ensures InnerProgress(models, orig, start, Filed(Unfiled(before, s, h, drop), models[h].strata, h).value,
                          s, misfiled, pending - {h}, drop)
  {
    var t := models[h].strata;
    var after := Filed(Unfiled(before, s, h, drop), t, h).value;
    assert t != s;
    assert start[s] - (misfiled - (pending - {h})) == (start[s] - (misfiled - pending)) - {h};
    StoredStep(models, before, s, h, drop);
    CorrectBelowStep(models, before, s, h, drop);
    RelocatedStep(models, orig, before, s, h, drop);
    OnlyAddsStep(models, orig, before, s, h, drop);
    ProcessedStep(models, before, s, misfiled, pending, h, drop);
  }

  /// Moving a hash that is filed under `s` files no hash that was not
  /// filed before.
  lemma RefiledStep(models: Models, start: StrataIndex, before: StrataIndex, s: nat, h: nat, drop: bool)
    requires FiledBefore(start, before)
    requires s in before && h in before[s] && h in models
    requires Filed(Unfiled(before, s, h, drop), models[h].strata, h).Some?
    ensures FiledBefore(start, Filed(Unfiled(before, s, h, drop), models[h].strata, h).value)
  {
    var t := models[h].strata;
    var unfiled := Unfiled(before, s, h, drop);
    var after := Filed(unfiled, t, h).value;
    forall k | k in Hashes(after)
      ensures k in Hashes(before)
    {
      var u :| u in after && k in after[u];
      if k == h {
        assert s in before && h in before[s];
      } else if u == t {
        assert t in unfiled && k in unfiled[t];
        assert t in before && k in before[t];
      } else {
        assert u in unfiled && k in unfiled[u];
        assert u in before && k in before[u];
      }
    }
  }

  lemma StoredStep(models: Models, before: StrataIndex, s: nat, h: nat, drop: bool)
    requires FilesAreStoredBelow(models, before, Config.MaxStrata + 1)
    requires s in before && h in models
    requires Filed(Unfiled(before, s, h, drop), models[h].strata, h).Some?
    ensures FilesAreStoredBelow(models, Filed(Unfiled(before, s, h, drop), models[h].strata, h).value, Config.MaxStrata + 1)
  {
    var t := models[h].strata;
    var after := Filed(Unfiled(before, s, h, drop), t, h).value;
    forall u, k | u in after && u < Config.MaxStrata + 1 && k in after[u]
      ensures k in models
    {
      if k != h {
        assert k in before[u];
      }
    }
  }

  lemma CorrectBelowStep(models: Models, before: StrataIndex, s: nat, h: nat, drop: bool)
    requires FilesAreCorrectBelow(models, before, s)
    requires s in before && h in models && models[h].strata != s
    requires Filed(Unfiled(before, s, h, drop), models[h].strata, h).Some?
    ensures FilesAreCorrectBelow(models, Filed(Unfiled(before, s, h, drop), models[h].strata, h).value, s)
  {
    var t := models[h].strata;
    var after := Filed(Unfiled(before, s, h, drop), t, h).value;
    forall u, k | u in after && u < s && k in after[u]
      ensures k in models && models[k].strata == u
    {
      if k != h {
        assert k in before[u];
      }
    }
  }

  lemma RelocatedStep(models: Models, orig: StrataIndex, before: StrataIndex, s: nat, h: nat, drop: bool)
    requires RelocatedBelow(models, orig, before, s)
    requires s in before && h in models && models[h].strata != s
    requires Filed(Unfiled(before, s, h, drop), models[h].strata, h).Some?
    ensures RelocatedBelow(models, orig, Filed(Unfiled(before, s, h, drop), models[h].strata, h).value, s)
  {
    var t := models[h].strata;
    var unfiled := Unfiled(before, s, h, drop);
    var after := Filed(unfiled, t, h).value;
    forall u, k | u in orig && u < s && k in orig[u]
      ensures k in models && models[k].strata in after && k in after[models[k].strata]
    {
      var v := models[k].strata;
      assert v in before && k in before[v];
      if v == s {
        assert k in before[s] - {h};
        assert v in unfiled && k in unfiled[v];
      } else {
        assert v in unfiled && k in unfiled[v];
      }
    }
  }

  lemma OnlyAddsStep(models: Models, orig: StrataIndex, before: StrataIndex, s: nat, h: nat, drop: bool)
    requires OnlyAddsFrom(models, orig, before, s + 1)
    requires s in before && h in models && models[h].strata != s
    requires Filed(Unfiled(before, s, h, drop), models[h].strata, h).Some?
    ensures OnlyAddsFrom(models, orig, Filed(Unfiled(before, s, h, drop), models[h].strata, h).value, s + 1)
  {
    var t := models[h].strata;
    var unfiled := Unfiled(before, s, h, drop);
    var after := Filed(unfiled, t, h).value;
    forall u | u in orig && s + 1 <= u
      ensures u in after && orig[u] <= after[u]
    {
      assert u in before && orig[u] <= before[u];
      assert u in unfiled && unfiled[u] == before[u];
    }
    forall u, k | u in after && s + 1 <= u && k in after[u] && !(u in orig && k in orig[u])
      ensures k in models && models[k].strata == u
    {
      if k != h {
        assert k in before[u];
      }
    }
  }

  lemma ProcessedStep(models: Models, before: StrataIndex, s: nat, misfiled: set<nat>, pending: set<nat>, h: nat, drop: bool)
    requires s in before && h in models && models[h].strata != s
    requires h in pending && pending <= misfiled
    requires forall k :: k in misfiled ==> k in models && models[k].strata != s
    requires forall k :: k in misfiled - pending ==> models[k].strata in before && k in before[models[k].strata]
    requires Filed(Unfiled(before, s, h, drop), models[h].strata, h).Some?
    ensures var after := Filed(Unfiled(before, s, h, drop), models[h].strata, h).value;
            forall k :: k in misfiled - (pending - {h}) ==> models[k].strata in after && k in after[models[k].strata]
  {
    var t := models[h].strata;
    var unfiled := Unfiled(before, s, h, drop);
    var after := Filed(unfiled, t, h).value;
    forall k | k in misfiled - (pending - {h})
      ensures models[k].strata in after && k in after[models[k].strata]
    {
      if k != h {
        assert k in misfiled - pending;
        var v := models[k].strata;
        assert v != s && v in unfiled && k in unfiled[v];
      }
    }
  }

  /// Once every misfiled hash of strata `s` is moved, the strata after it
  /// can be visited.
  lemma InnerDone(models: Models, orig: StrataIndex, start: StrataIndex, stratas: StrataIndex,
                  s: nat, misfiled: set<nat>, drop: bool)
    requires InnerProgress(models, orig, start, stratas, s, misfiled, {}, drop)
    ensures OuterProgress(models, orig, stratas, s + 1)
  {
    forall k | s in orig && k in orig[s]
      ensures models[k].strata in stratas && k in stratas[models[k].strata]
    {
      assert k in start[s];
      if models[k].strata != s {
        assert k in misfiled;
      } else {
        assert k !in misfiled;
      }
    }
    forall k | s in stratas && k in stratas[s]
      ensures models[k].strata == s
    {
      assert k in start[s] && k !in misfiled;
    }
  }

  /// The source's `insert_twice` test: the second insert of a model is
  /// refused and the registry keeps one copy.
  method InsertTwice(model: ModelRecord.ModelData) returns (first: Result<Unit, EngineErrors.ModelError>,
                                                            second: Result<Unit, EngineErrors.ModelError>)
    requires Config.CorrectStrataRange(model.strata)
    ensures first == Ok(Unit) && second == Err(EngineErrors.ModelAlreadyExists)
  {
    var list := new InternalModels.New();
    first := list.Insert(model);
    second := list.Insert(model);
  }

  /// The source's `insert_then_remove` and `remove_model_that_doesnt_exist`
  /// tests.
  method InsertThenRemove(model: ModelRecord.ModelData, other: nat) returns (removed: Option<ModelRecord.ModelData>,
                                                                            missing: Option<ModelRecord.ModelData>)
    requires Config.CorrectStrataRange(model.strata) && other != model.uniqueHash
    ensures removed == Some(model) && missing.None?
  {
    var list := new InternalModels.New();
    var inserted := list.Insert(model);
    missing := list.Remove(other);
    removed := list.Remove(model.uniqueHash);
  }

  /// The source's `misplaced_strata` test: a model filed under strata 0
  /// while its own strata is another is moved there, and the emptied
  /// strata-0 set is dropped.
  method MisplacedStrata(model: ModelRecord.ModelData) returns (fix: Result<Unit, EngineErrors.ModelError>,
                                                               fake: Option<set<nat>>, actual: Option<set<nat>>)
    requires model.strata != 0 && Config.CorrectStrataRange(model.strata)
    ensures fix.Ok? && fake.None? && actual.Some? && model.uniqueHash in actual.value
  {
    var list := new InternalModels.New();
    list.models := map[model.uniqueHash := model];
    list.modelStratas := map[0 := {model.uniqueHash}];
    ghost var before := list.modelStratas;
    assert SetsAreNonEmpty(before);
    fix := list.FixStrataList();
    assert model.uniqueHash in before[0];
    FiledSetHasModel(list.models, list.modelStratas, 0);
    fake := list.GetStrataKeys(0);
    actual := list.GetStrataKeys(model.strata);
  }

  /// The source's `fix_model_strata_fake_old_strata` test.
  method FixModelStrataWithoutOldSet(key: nat) returns (r: Result<Unit, EngineErrors.ModelError>)
    ensures r == Err(EngineErrors.ModelDoesntExist)
  {
    var list := new InternalModels.New();
    r := list.FixModelStrata(key, 0, 10);
  }
}
