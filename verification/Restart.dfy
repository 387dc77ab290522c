/** What a new process makes of tasks and counts that an old one left behind
    (`reconcile_interrupted_tasks`). */
module Restart {
  import opened CommandTask
  import Store = SandboxStore
  import Protocol = SandboxProtocol

  /** No coroutine of the old process survives: only documents and counts do. */
  function FreshProcess(store: Store.Store): Protocol.World {
    Protocol.World(store, map[], map[])
  }

  /** With no tasks and no leases, counts of zero are right. */
  lemma FreshIsSafe(store: Store.Store)
    requires forall id {:trigger store[id]} :: id in store && store[id].state.UserActive? ==> store[id].count == 0
    ensures Protocol.Safe(FreshProcess(store))
  {
    var w := FreshProcess(store);
    assert forall id :: Protocol.Protectors(w, id) == {} && Protocol.Guardians(w, id) == {};
  }

  function LostSoFar(documents: map<string, Doc>, tasks: seq<string>): map<string, Doc> {
    map t | t in documents :: if t in tasks then documents[t].(status := Status.Lost) else documents[t]
  }

  lemma LostSoFarGrows(documents: map<string, Doc>, tasks: seq<string>, t: string)
    requires t in documents
    ensures
      var lost := LostSoFar(documents, tasks);
      t in lost && LostSoFar(documents, tasks + [t]) == lost[t := lost[t].(status := Status.Lost)]
  {
  }

  lemma LostSoFarIs(documents: map<string, Doc>, unfinished: seq<string>)
    requires forall t :: t in unfinished <==> t in documents && !Terminal(documents[t].status)
    ensures LostSoFar(documents, []) == documents
    ensures LostSoFar(documents, unfinished) == map t | t in documents ::
              if Terminal(documents[t].status) then documents[t] else documents[t].(status := Status.Lost)
  {
  }

  function ZeroSoFar(store: Store.Store, ids: seq<string>): Store.Store {
    map id | id in store :: if id in ids then store[id].(count := 0) else store[id]
  }

  lemma ZeroSoFarGrows(store: Store.Store, ids: seq<string>, id: string)
    requires id in store && id !in ids
    ensures
      var zero, more := ZeroSoFar(store, ids), ZeroSoFar(store, ids + [id]);
      id in zero && more == if zero[id].count > 0 then Store.Unregister(zero, id, zero[id].count) else zero
  {
  }

  lemma ZeroSoFarIs(store: Store.Store, active: seq<string>)
    requires forall id :: id in active <==> id in store && store[id].state == Store.UserActive
    ensures ZeroSoFar(store, []) == store
    ensures ZeroSoFar(store, active) == map id | id in store ::
              if store[id].state.UserActive? then store[id].(count := 0) else store[id]
  {
  }

  class CommandTaskService {
    var documents: map<string, Doc>
    const sandboxes: Store.SandboxRepository

    constructor (documents: map<string, Doc>, sandboxes: Store.SandboxRepository)
      ensures this.documents == documents && this.sandboxes == sandboxes
    {
      this.documents, this.sandboxes := documents, sandboxes;
    }

    method ListUnfinished() returns (tasks: seq<string>)
      ensures forall t :: t in tasks <==> t in documents && !Terminal(documents[t].status)
    {
      tasks := [];
      var left := documents.Keys;
      while left != {}
        invariant left <= documents.Keys
        invariant forall t :: t in tasks <==> t in documents && t !in left && !Terminal(documents[t].status)
        decreases |left|
      {
        var t :| t in left;
        if documents[t].status == Pending || documents[t].status == Running { tasks := tasks + [t]; }
        left := left - {t};
      }
    }

    /** From any state at all: unfinished tasks become LOST and nothing else about tasks changes; active
        sandboxes count zero and nothing else about sandboxes changes; and from there on every run is
        safe. */
    method ReconcileInterruptedTasks()
      modifies this, sandboxes
      ensures documents == map t | t in old(documents) ::
                if Terminal(old(documents)[t].status) then old(documents)[t]
                else old(documents)[t].(status := Status.Lost)
      ensures sandboxes.sandboxes == map id | id in old(sandboxes.sandboxes) ::
                if old(sandboxes.sandboxes)[id].state.UserActive? then old(sandboxes.sandboxes)[id].(count := 0)
                else old(sandboxes.sandboxes)[id]
      ensures Protocol.Safe(FreshProcess(sandboxes.sandboxes))
    {
      hide Protocol.Safe, LostSoFar, ZeroSoFar, Store.Unregister;
      var unfinished := ListUnfinished();
      LostSoFarIs(documents, unfinished);
      for k := 0 to |unfinished|
        invariant documents == LostSoFar(old(documents), unfinished[..k])
        invariant sandboxes.sandboxes == old(sandboxes.sandboxes)
      {
        var t := unfinished[k];
        assert unfinished[..k + 1] == unfinished[..k] + [t];
        LostSoFarGrows(old(documents), unfinished[..k], t);
        documents := documents[t := documents[t].(status := Status.Lost)];
      }
      assert unfinished[..|unfinished|] == unfinished;
      var active := sandboxes.GetByState(Store.UserActive);
      ZeroSoFarIs(sandboxes.sandboxes, active);
      for k := 0 to |active|
        invariant documents == LostSoFar(old(documents), unfinished)
        invariant sandboxes.sandboxes == ZeroSoFar(old(sandboxes.sandboxes), active[..k])
      {
        var id := active[k];
        assert active[..k + 1] == active[..k] + [id];
        assert id !in active[..k];
        ZeroSoFarGrows(old(sandboxes.sandboxes), active[..k], id);
        if sandboxes.sandboxes[id].count > 0 {
          var released := sandboxes.UnregisterActive(id, sandboxes.sandboxes[id].count);
        }
      }
      assert active[..|active|] == active;
      FreshIsSafe(sandboxes.sandboxes);
    }
  }
}
