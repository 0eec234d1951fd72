// examples/model_tests/collision_data.rs: the chain of movements a collision
// handler collects, keyed by the hash of the model each one moves, and run
// all at once unless something cancels the chain. Running a movement acts on
// the shared model through code that is not part of this model, so running
// the chain here yields the actions it would perform.
module CollisionChain {
  import ModelRecord

  datatype MovementType =
    | AbsoluteMovement(position: (nat, nat))
    | RelativeMovement(offset: (int, int))

  datatype CollisionAction = CollisionAction(model: ModelRecord.ModelData, movement: MovementType)

  /// `insert` of every entry of `other`, in any order: an entry of `other`
  /// replaces an entry of `actions` under the same hash.
  function Merge(actions: map<nat, CollisionAction>, other: map<nat, CollisionAction>): (r: map<nat, CollisionAction>)
    ensures r.Keys == actions.Keys + other.Keys
    ensures forall h :: h in other ==> r[h] == other[h]
    ensures forall h :: h in actions && h !in other ==> r[h] == actions[h]
  {
    actions + other
  }

  class CollisionChain {
    var modelActions: map<nat, CollisionAction>
    var actionChainCanceled: bool

    /// `new`: no actions, not cancelled.
    constructor New()
      ensures modelActions == map[] && !actionChainCanceled
    {
      modelActions := map[];
      actionChainCanceled := false;
    }

    /// `cancel_action_chain`.
    method CancelActionChain()
      modifies this
      ensures actionChainCanceled && modelActions == old(modelActions)
    {
      actionChainCanceled := true;
    }

    /// `add_action`: keyed by the model's hash, replacing an earlier action
    /// for the same model.
    method AddAction(action: CollisionAction)
      modifies this
      ensures modelActions == Merge(old(modelActions), map[action.model.uniqueHash := action])
      ensures actionChainCanceled == old(actionChainCanceled)
    {
      modelActions := modelActions[action.model.uniqueHash := action];
    }

    /// `append`: every action of `other` goes in, one at a time, replacing
    /// this chain's action for the same hash; the result is cancelled when
    /// either chain was. `other` is consumed in the source, so it is a
    /// different chain.
    method Append(other: CollisionChain)
      requires other != this
      modifies this
      ensures modelActions == Merge(old(modelActions), other.modelActions)
      ensures actionChainCanceled == (old(actionChainCanceled) || other.actionChainCanceled)
    {
      var remaining := other.modelActions.Keys;
      while remaining != {}
        invariant remaining <= other.modelActions.Keys
        invariant actionChainCanceled == old(actionChainCanceled)
        invariant modelActions.Keys == old(modelActions).Keys + (other.modelActions.Keys - remaining)
        invariant forall h :: h in other.modelActions && h !in remaining ==> modelActions[h] == other.modelActions[h]
        invariant forall h :: h in old(modelActions) && (h !in other.modelActions || h in remaining) ==>
          modelActions[h] == old(modelActions)[h]
        decreases remaining
      {
        var hash :| hash in remaining;
        modelActions := modelActions[hash := other.modelActions[hash]];
        remaining := remaining - {hash};
      }
      if other.actionChainCanceled {
        actionChainCanceled := true;
      }
    }

    /// `change_movement_of`: only `key`'s movement changes. The source
    /// unwraps the lookup, so the key must be there.
    method ChangeMovementOf(key: nat, newMovement: MovementType)
      requires key in modelActions
      modifies this
      ensures modelActions.Keys == old(modelActions).Keys
      ensures modelActions[key] == old(modelActions)[key].(movement := newMovement)
      ensures forall h :: h in modelActions && h != key ==> modelActions[h] == old(modelActions)[h]
      ensures actionChainCanceled == old(actionChainCanceled)
    {
      modelActions := modelActions[key := modelActions[key].(movement := newMovement)];
    }

    /// `run_action_list`: nothing when cancelled; otherwise every stored
    /// action once, in the map's (unspecified) order.
    method RunActionList() returns (performed: seq<CollisionAction>)
      ensures actionChainCanceled ==> performed == []
      ensures !actionChainCanceled ==> |performed| == |modelActions|
      ensures !actionChainCanceled ==> forall a :: a in performed <==> a in modelActions.Values
    {
      performed := [];
      if actionChainCanceled {
        return;
      }
      var remaining := modelActions.Keys;
      ghost var done: set<nat> := {};
      while remaining != {}
        invariant remaining !! done && remaining + done == modelActions.Keys
        invariant |performed| == |done|
        invariant forall a :: a in performed <==> exists h :: h in done && modelActions[h] == a
        invariant forall h :: h in done ==> modelActions[h] in performed
        decreases remaining
      {
        var hash :| hash in remaining;
        performed := performed + [modelActions[hash]];
        remaining := remaining - {hash};
        done := done + {hash};
      }
      assert done == modelActions.Keys;
      forall a | a in modelActions.Values
        ensures a in performed
      {
        var h :| h in modelActions && modelActions[h] == a;
      }
    }
  }

  /// A second action for the same model replaces the first, and a cancelled
  /// chain appended to a live one cancels it.
  method ChainLogic(m: ModelRecord.ModelData, p: ModelRecord.ModelData)
    returns (actions: map<nat, CollisionAction>, canceled: bool, performed: seq<CollisionAction>)
    requires m.uniqueHash != p.uniqueHash
    ensures actions == map[m.uniqueHash := CollisionAction(m, RelativeMovement((0, -1))),
                           p.uniqueHash := CollisionAction(p, AbsoluteMovement((3, 4)))]
    ensures canceled && performed == []
  {
    var chain := new CollisionChain.New();
    chain.AddAction(CollisionAction(m, RelativeMovement((1, 0))));
    chain.AddAction(CollisionAction(m, RelativeMovement((0, -1))));
    var other := new CollisionChain.New();
    other.AddAction(CollisionAction(p, RelativeMovement((1, 1))));
    other.ChangeMovementOf(p.uniqueHash, AbsoluteMovement((3, 4)));
    other.CancelActionChain();
    chain.Append(other);
    actions := chain.modelActions;
    canceled := chain.actionChainCanceled;
    performed := chain.RunActionList();
  }
}
