/** Tables with incremental IDs, the lifetime of which the quotas count. */
module Tables {
  import opened Wrappers

  datatype TableOp<T> = Insert(item: T) | Delete(id: nat)

  class HashMapId<T> {
    var idSeed: nat
    var store: map<nat, T>

    ghost predicate Valid()
      reads this
    {
      forall id :: id in store ==> id < idSeed
    }

    constructor ()
      ensures Valid() && store == map[] && idSeed == 0
    {
      idSeed, store := 0, map[];
    }

    method Add(item: T) returns (id: nat)
      requires Valid()
      modifies this
      ensures Valid()
      ensures id == old(idSeed) && id !in old(store) && idSeed == id + 1
      ensures store == old(store)[id := item]
      ensures |store| == |old(store)| + 1
    {
      id := idSeed;
      store := store[id := item];
      idSeed := idSeed + 1;
      assert store.Keys == old(store).Keys + {id};
    }

    method Remove(id: nat) returns (r: Option<T>)
      requires Valid()
      modifies `store
      ensures Valid()
      ensures r == if id in old(store) then Some(old(store)[id]) else None
      ensures store == old(store) - {id}
    {
      r := if id in store then Some(store[id]) else None;
      store := store - {id};
    }

    /** Over every run of additions and removals the IDs only go up, so none ever names two items. */
    method Run(ops: seq<TableOp<T>>) returns (ids: seq<nat>)
      requires Valid()
      modifies this
      ensures Valid() && idSeed >= old(idSeed)
      ensures forall i, j :: 0 <= i < j < |ids| ==> ids[i] < ids[j]
      ensures forall id :: id in ids ==> old(idSeed) <= id < idSeed
      ensures forall id :: id in store && id !in old(store) ==> id in ids
    {
      ids := [];
      for k := 0 to |ops|
        invariant Valid() && idSeed >= old(idSeed)
        invariant forall i, j :: 0 <= i < j < |ids| ==> ids[i] < ids[j]
        invariant forall id :: id in ids ==> old(idSeed) <= id < idSeed
        invariant forall id :: id in store && id !in old(store) ==> id in ids
      {
        match ops[k]
        case Insert(item) =>
          assert forall i :: 0 <= i < |ids| ==> ids[i] in ids;
          var id := Add(item);
          ids := ids + [id];
        case Delete(id) =>
          var _ := Remove(id);
      }
    }
  }
}
