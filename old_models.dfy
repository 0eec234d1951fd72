// src/screen/models.rs: the earlier version of the model registry. It has no
// removal, and `fix_model_strata` leaves an emptied strata set in place.
module OldModelRegistry {
  import opened Wrappers
  import Config
  import EngineErrors
  import ModelRecord
  import opened ModelStorage

  class InternalModels {
    var modelStratas: StrataIndex
    var models: Models

    constructor New()
      ensures models == map[] && modelStratas == map[]
    {
      models := map[];
      modelStratas := map[];
    }

    /// `get_model`.
    function GetModel(key: nat): (r: Option<ModelRecord.ModelData>)
      reads this
      ensures r.Some? <==> key in models
      ensures r.Some? ==> r.value == models[key]
    {
      if key in models then Some(models[key]) else None
    }

    /// `get_strata_keys`.
    function GetStrataKeys(strata: nat): (r: Option<set<nat>>)
      reads this
      ensures r.Some? <==> strata in modelStratas
      ensures r.Some? ==> r.value == modelStratas[strata]
    {
      if strata in modelStratas then Some(modelStratas[strata]) else None
    }

    /// `get_model_keys`: exactly the stored hashes.
    function GetModelKeys(): (r: set<nat>)
      reads this
      ensures forall k :: k in r <==> GetModel(k).Some?
    {
      models.Keys
    }

    /// `insert_strata`. The source files `model.get_unique_hash()`; this
    /// files the key, which is that hash whenever models are stored under
    /// their own hashes, as `insert` stores them.
    method InsertStrata(key: nat) returns (r: Result<Unit, EngineErrors.ModelError>)
      modifies this
      ensures models == old(models)
      ensures key !in models ==> r == Err(EngineErrors.ModelDoesntExist) && modelStratas == old(modelStratas)
      ensures key in models && Filed(old(modelStratas), models[key].strata, key).Some? ==>
                r == Ok(Unit) && modelStratas == Filed(old(modelStratas), models[key].strata, key).value
      ensures key in models && Filed(old(modelStratas), models[key].strata, key).None? ==>
                r == Err(EngineErrors.IncorrectStrataRange(models[key].strata)) && modelStratas == old(modelStratas)
    {
      var model := GetModel(key);
      if model.None? {
        return Err(EngineErrors.ModelDoesntExist);
      }
      var modelStrata := model.value.strata;
      if modelStrata in modelStratas {
        modelStratas := modelStratas[modelStrata := modelStratas[modelStrata] + {key}];
      } else if Config.CorrectStrataRange(modelStrata) {
        modelStratas := modelStratas[modelStrata := {key}];
      } else {
        return Err(EngineErrors.IncorrectStrataRange(modelStrata));
      }
      r := Ok(Unit);
    }

    /// `insert`.
    method Insert(model: ModelRecord.ModelData) returns (r: Result<Unit, EngineErrors.ModelError>)
      modifies this
      ensures var key := model.uniqueHash;
              key in old(models) ==>
                r == Err(EngineErrors.ModelAlreadyExists) && models == old(models) && modelStratas == old(modelStratas)
      ensures var key := model.uniqueHash;
              key !in old(models) ==> models == old(models)[key := model]
      ensures var key := model.uniqueHash;
              key !in old(models) && Filed(old(modelStratas), model.strata, key).Some? ==>
                r == Ok(Unit) && modelStratas == Filed(old(modelStratas), model.strata, key).value
      ensures var key := model.uniqueHash;
              key !in old(models) && Filed(old(modelStratas), model.strata, key).None? ==>
                r == Err(EngineErrors.IncorrectStrataRange(model.strata)) && modelStratas == old(modelStratas)
    {
      var key := model.uniqueHash;
      if key in models {
        return Err(EngineErrors.ModelAlreadyExists);
      }
      models := models[key := model];
      r := InsertStrata(key);
    }

    /// `fix_model_strata`: as in the later registry, except that the old
    /// set stays in the index even when it becomes empty.
    method FixModelStrata(key: nat, oldStrata: nat, newStrata: nat) returns (r: Result<Unit, EngineErrors.ModelError>)
      modifies this
      ensures models == old(models)
      ensures !Config.CorrectStrataRange(newStrata) ==>
                r == Err(EngineErrors.IncorrectStrataRange(newStrata)) && modelStratas == old(modelStratas)
      ensures Config.CorrectStrataRange(newStrata) && !(oldStrata in old(modelStratas) && key in old(modelStratas)[oldStrata]) ==>
                r == Err(EngineErrors.ModelDoesntExist) && modelStratas == old(modelStratas)
      ensures Config.CorrectStrataRange(newStrata) && oldStrata in old(modelStratas) && key in old(modelStratas)[oldStrata] ==>
                var unfiled := Unfiled(old(modelStratas), oldStrata, key, false);
                if key !in models then r == Err(EngineErrors.ModelDoesntExist) && modelStratas == unfiled
                else if Filed(unfiled, models[key].strata, key).None?
                then r == Err(EngineErrors.IncorrectStrataRange(models[key].strata)) && modelStratas == unfiled
                else r == Ok(Unit) && modelStratas == Filed(unfiled, models[key].strata, key).value
    {
      if !Config.CorrectStrataRange(newStrata) {
        return Err(EngineErrors.IncorrectStrataRange(newStrata));
      }
      if oldStrata in modelStratas && key in modelStratas[oldStrata] {
        modelStratas := modelStratas[oldStrata := modelStratas[oldStrata] - {key}];
        r := InsertStrata(key);
        return;
      }
      r := Err(EngineErrors.ModelDoesntExist);
    }

    /// `fix_strata_list`: the same scan over strata 0..=100 as in the later
    /// registry.
    method FixStrataList() returns (r: Result<Unit, EngineErrors.ModelError>)
      requires FilesAreStoredBelow(models, modelStratas, Config.MaxStrata + 1)
      modifies this
      ensures models == old(models)
      ensures r.Err? ==> r.error.IncorrectStrataRange? && !Config.CorrectStrataRange(r.error.strata)
      ensures r.Err? ==> exists h :: h in models && models[h].strata == r.error.strata
      ensures r.Ok? ==> FilesAreCorrectBelow(models, modelStratas, Config.MaxStrata + 1)
      ensures r.Ok? ==> RelocatedBelow(models, old(modelStratas), modelStratas, Config.MaxStrata + 1)
      ensures r.Ok? ==> OnlyAddsFrom(models, old(modelStratas), modelStratas, Config.MaxStrata + 1)
      ensures r.Ok? ==> FiledBefore(old(modelStratas), modelStratas)
      ensures old(FilesAreCorrectBelow(models, modelStratas, Config.MaxStrata + 1)) ==>
                r.Ok? && modelStratas == old(modelStratas)
    {
      ghost var orig := modelStratas;
      ghost var originallyCorrect := FilesAreCorrectBelow(models, modelStratas, Config.MaxStrata + 1);
      OuterStart(models, orig);
      FiledBeforeItself(orig);
      var s := 0;
      while s <= Config.MaxStrata
        invariant 0 <= s <= Config.MaxStrata + 1
        invariant models == old(models)
        invariant OuterProgress(models, orig, modelStratas, s)
        invariant FiledBefore(orig, modelStratas)
        invariant originallyCorrect ==> modelStratas == orig
      {
        ghost var before := modelStratas;
        r := FixStrataStep(s, orig, originallyCorrect);
        if r.Err? {
          return;
        }
        FiledBeforeTrans(orig, before, modelStratas);
        s := s + 1;
      }
      r := Ok(Unit);
    }

    /// Strata `s` of `fix_strata_list`: its set, if there is one, is fixed.
    method FixStrataStep(s: nat, ghost orig: StrataIndex, ghost originallyCorrect: bool)
      returns (r: Result<Unit, EngineErrors.ModelError>)
      requires s <= Config.MaxStrata
      requires OuterProgress(models, orig, modelStratas, s)
      requires originallyCorrect == FilesAreCorrectBelow(models, orig, Config.MaxStrata + 1)
      requires originallyCorrect ==> modelStratas == orig
      modifies this
      ensures models == old(models)
      ensures r.Err? ==> r.error.IncorrectStrataRange? && !Config.CorrectStrataRange(r.error.strata)
      ensures r.Err? ==> exists h :: h in models && models[h].strata == r.error.strata
      ensures r.Ok? ==> OuterProgress(models, orig, modelStratas, s + 1)
      ensures r.Ok? ==> FiledBefore(old(modelStratas), modelStratas)
      ensures originallyCorrect ==> r.Ok? && modelStratas == orig
    {
      if s in modelStratas {
        if originallyCorrect {
          CorrectSetNeedsNoPass(models, orig, s);
        }
        r := FixOneStrata(s, orig);
      } else {
        OuterSkip(models, orig, modelStratas, s);
        FiledBeforeItself(modelStratas);
        r := Ok(Unit);
      }
    }

    /// One pass of `fix_strata_list` over the set of strata `s`.
    method FixOneStrata(s: nat, ghost orig: StrataIndex) returns (r: Result<Unit, EngineErrors.ModelError>)
      requires s in modelStratas && Config.CorrectStrataRange(s)
      requires OuterProgress(models, orig, modelStratas, s)
      modifies this
      ensures models == old(models)
      ensures r.Err? ==> r.error.IncorrectStrataRange? && !Config.CorrectStrataRange(r.error.strata)
      ensures r.Err? ==> exists h :: h in models && models[h].strata == r.error.strata
      ensures r.Ok? ==> OuterProgress(models, orig, modelStratas, s + 1)
      ensures r.Ok? ==> FiledBefore(old(modelStratas), modelStratas)
      ensures (forall h :: h in old(modelStratas)[s] ==> models[h].strata == s) ==>
                r.Ok? && modelStratas == old(modelStratas)
    {
      ghost var start := modelStratas;
      var misfiled := set h | h in modelStratas[s] && models[h].strata != s;
      var pending := misfiled;
      if forall h :: h in start[s] ==> models[h].strata == s {
        assert misfiled == {};
      }
      InnerStart(models, orig, start, s, misfiled, false);
      FiledBeforeItself(start);
      while pending != {}
        invariant models == old(models)
        invariant InnerProgress(models, orig, start, modelStratas, s, misfiled, pending, false)
        invariant FiledBefore(start, modelStratas)
        decreases |pending|
      {
        var h :| h in pending;
        ghost var before := modelStratas;
        r := FixModelStrata(h, s, s);
        if r.Err? {
          assert h in models && models[h].strata == r.error.strata;
          return;
        }
        InnerStep(models, orig, start, before, s, misfiled, pending, h, false);
        RefiledStep(models, start, before, s, h, false);
        pending := pending - {h};
      }
      InnerDone(models, orig, start, modelStratas, s, misfiled, false);
      r := Ok(Unit);
    }
  }

  /// Moving a model's only hash out of its old set leaves that set in
  /// place, empty, where the later registry drops it.
  method EmptiedSetIsKept(model: ModelRecord.ModelData, oldStrata: nat)
    returns (r: Result<Unit, EngineErrors.ModelError>, left: Option<set<nat>>)
    requires Config.CorrectStrataRange(model.strata) && Config.CorrectStrataRange(oldStrata)
    requires oldStrata != model.strata
    ensures r == Ok(Unit) && left == Some({})
  {
    var list := new InternalModels.New();
    list.models := map[model.uniqueHash := model];
    list.modelStratas := map[oldStrata := {model.uniqueHash}];
    r := list.FixModelStrata(model.uniqueHash, oldStrata, oldStrata);
    left := list.GetStrataKeys(oldStrata);
  }
}
