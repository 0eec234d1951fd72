// src/screen/object_screen_data.rs: how many objects of one name the old
// screen holds now and has ever held. Counts are `u32`; an increment past
// the largest `u32` panics in the source, so the increments require room.
module ObjectScreenData {
  import Config

  /// `CurrentAndTotalObjects`: (currently existing, total existed).
  type CurrentAndTotalObjects = (nat, nat)

  /// `ObjectDataMethods::get_currently_existing` of the pair.
  function PairCurrentlyExisting(t: CurrentAndTotalObjects): nat
  {
    t.0
  }

  /// `ObjectDataMethods::get_total_existed` of the pair.
  function PairTotalExisted(t: CurrentAndTotalObjects): nat
  {
    t.1
  }

  class ObjectScreenData {
    var name: string
    var keepData: bool
    var currentlyExisting: nat
    var totalCount: nat

    /// Both counts fit in a `u32`.
    predicate Valid()
      reads this
    {
      currentlyExisting < Config.U32Limit && totalCount < Config.U32Limit
    }

    /// `new`: both counts zero, data not kept.
    constructor New(name: string)
      ensures this.name == name && !keepData
      ensures currentlyExisting == 0 && totalCount == 0
      ensures Valid()
    {
      this.name := name;
      keepData := false;
      currentlyExisting := 0;
      totalCount := 0;
    }

    /// The counts as the pair the accessors read.
    function Counts(): (r: CurrentAndTotalObjects)
      reads this
      ensures PairCurrentlyExisting(r) == currentlyExisting && PairTotalExisted(r) == totalCount
    {
      (currentlyExisting, totalCount)
    }

    /// `increment_total`.
    method IncrementTotal()
      modifies this
      requires totalCount + 1 < Config.U32Limit
      ensures totalCount == old(totalCount) + 1
      ensures currentlyExisting == old(currentlyExisting) && keepData == old(keepData) && name == old(name)
      ensures old(Valid()) ==> Valid()
    {
      totalCount := totalCount + 1;
    }

    /// `increment_current` as written: it is `increment_total`, so the
    /// current count its comment names stays where it was.
    method IncrementCurrent()
      modifies this
      requires totalCount + 1 < Config.U32Limit
      ensures currentlyExisting == old(currentlyExisting)
      ensures totalCount == old(totalCount) + 1 && keepData == old(keepData) && name == old(name)
      ensures old(Valid()) ==> Valid()
    {
      IncrementTotal();
    }

    /// `increment_current` as its comment describes it: one more object of
    /// this name is on the screen.
    method IncrementCurrentlyExisting()
      modifies this
      requires currentlyExisting + 1 < Config.U32Limit
      ensures currentlyExisting == old(currentlyExisting) + 1
      ensures totalCount == old(totalCount) && keepData == old(keepData) && name == old(name)
      ensures old(Valid()) ==> Valid()
    {
      currentlyExisting := currentlyExisting + 1;
    }

    /// `decrement_current`: one less, but never below zero.
    method DecrementCurrent()
      modifies this
      ensures old(currentlyExisting) > 0 ==> currentlyExisting == old(currentlyExisting) - 1
      ensures old(currentlyExisting) == 0 ==> currentlyExisting == 0
      ensures totalCount == old(totalCount) && keepData == old(keepData) && name == old(name)
      ensures old(Valid()) ==> Valid()
    {
      if currentlyExisting > 0 {
        currentlyExisting := currentlyExisting - 1;
      }
    }

    /// `set_keep_data`.
    method SetKeepData(keepData: bool)
      modifies this
      ensures this.keepData == keepData
      ensures currentlyExisting == old(currentlyExisting) && totalCount == old(totalCount) && name == old(name)
      ensures old(Valid()) ==> Valid()
    {
      this.keepData := keepData;
    }
  }

  /// With the code as written, the current count never rises: two calls
  /// of `increment_current` leave it at zero and the total at two.
  method CurrentCountNeverRises() returns (counts: CurrentAndTotalObjects)
    ensures counts == (0, 2)
  {
    var data := new ObjectScreenData.New("square");
    data.IncrementCurrent();
    data.IncrementCurrent();
    counts := data.Counts();
  }

  /// With the corrected increment, a decrement undoes an increment and the
  /// total is left alone.
  method DecrementUndoesIncrement() returns (counts: CurrentAndTotalObjects)
    ensures counts == (1, 0)
  {
    var data := new ObjectScreenData.New("square");
    data.IncrementCurrentlyExisting();
    data.IncrementCurrentlyExisting();
    data.DecrementCurrent();
    counts := data.Counts();
  }

  /// Decrementing an empty count leaves it at zero.
  method DecrementSaturates() returns (counts: CurrentAndTotalObjects)
    ensures counts == (0, 0)
  {
    var data := new ObjectScreenData.New("square");
    data.DecrementCurrent();
    counts := data.Counts();
  }
}
