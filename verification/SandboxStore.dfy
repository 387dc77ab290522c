/** Sandbox documents and what the repository's operations do to them. */
module SandboxStore {
  import opened Sequences

  datatype Life = Warming | Ready | UserActive | Retiring | Destroying | Destroyed | Lost

  /** SANDBOX_ALLOWED_TRANSITIONS */
  function Allowed(s: Life): set<Life> {
    match s
    case Warming => {Ready, Destroying}
    case Ready => {UserActive, Destroying}
    case UserActive => {Retiring, Destroying}
    case Retiring => {Destroying}
    case Destroying => {Destroyed, Lost}
    case Destroyed => {}
    case Lost => {}
  }

  predicate CanTransition(expected: Life, state: Life) { state in Allowed(expected) }

  /** How far along its life a sandbox is. */
  function Age(s: Life): nat {
    match s
    case Warming => 0
    case Ready => 1
    case UserActive => 2
    case Retiring => 3
    case Destroying => 4
    case Destroyed => 5
    case Lost => 5
  }

  predicate Path(states: seq<Life>) {
    forall k {:trigger states[k]} :: 0 < k < |states| ==> CanTransition(states[k - 1], states[k])
  }

  /** A lifecycle only moves forward: no state, USER_ACTIVE included, is ever entered a second time. */
  lemma {:induction false} NeverReturns(states: seq<Life>, i: nat, j: nat)
    requires Path(states) && i < j < |states|
    ensures Age(states[i]) < Age(states[j])
    decreases j
  {
    assert CanTransition(states[j - 1], states[j]);
    if i < j - 1 { NeverReturns(states, i, j - 1); }
  }

  datatype Sandbox = Sandbox(
    state: Life,
    user: Option<string>,
    count: nat,                     // active_command_count
    lastActivity: Option<int>,
    bindAt: int)

  type Store = map<string, Sandbox>

  predicate CanRegister(store: Store, id: string, user: string) {
    id in store && store[id].state.UserActive? && store[id].user == Some(user)
  }

  function Later(a: Option<int>, b: int): int { if a.Some? && a.value > b then a.value else b }

  function Register(store: Store, id: string, user: string, now: int): Store {
    if CanRegister(store, id, user) then
      store[id := store[id].(count := store[id].count + 1, lastActivity := Some(Later(store[id].lastActivity, now)))]
    else store
  }

  function Unregister(store: Store, id: string, count: nat): Store {
    if id in store && store[id].count >= count then store[id := store[id].(count := store[id].count - count)] else store
  }

  /** No activity since the cutoff; a sandbox never used counts from its binding. */
  predicate IdleSince(s: Sandbox, cutoff: int) {
    if s.lastActivity.Some? then s.lastActivity.value <= cutoff else s.bindAt <= cutoff
  }

  predicate CanClaim(store: Store, id: string, cutoff: int) {
    id in store && store[id].state.UserActive? && store[id].count == 0 && IdleSince(store[id], cutoff)
  }

  function Claim(store: Store, id: string, cutoff: int): Store {
    if CanClaim(store, id, cutoff) then store[id := store[id].(state := Retiring)] else store
  }

  predicate CanAssign(store: Store, id: string) {
    id in store && store[id].state.Ready? && store[id].user.None?
  }

  function Assign(store: Store, id: string, user: string, now: int): Store {
    if CanAssign(store, id) then store[id := Sandbox(UserActive, Some(user), 0, None, now)] else store
  }

  function ChangeState(store: Store, id: string, state: Life, clearUserBinding: bool): Store {
    if id in store then
      store[id := store[id].(state := state, user := if clearUserBinding then None else store[id].user)]
    else store
  }

  ghost predicate Distinct(ids: seq<string>) {
    forall i, j {:trigger ids[i], ids[j]} :: 0 <= i < j < |ids| ==> ids[i] != ids[j]
  }

  lemma {:induction false} DistinctCounts(ids: seq<string>)
    requires Distinct(ids)
    ensures forall id {:trigger multiset(ids)[id]} :: multiset(ids)[id] == if id in ids then 1 else 0
  {
    if ids != [] {
      var last := Last(ids);
      assert ids == Init(ids) + [last];
      DistinctCounts(Init(ids));
      assert multiset(ids) == multiset(Init(ids)) + multiset{last};
    }
  }

  class SandboxRepository {
    var sandboxes: Store

    constructor ()
      ensures sandboxes == map[]
    {
      sandboxes := map[];
    }

    method RegisterActive(id: string, user: string, now: int) returns (registered: bool)
      modifies this
      ensures registered == CanRegister(old(sandboxes), id, user)
      ensures sandboxes == Register(old(sandboxes), id, user, now)
      ensures registered <==>
        id in old(sandboxes) && old(sandboxes)[id].state == UserActive && old(sandboxes)[id].user == Some(user)
      ensures sandboxes ==
        if !registered then old(sandboxes)
        else
          var s := old(sandboxes)[id];
          var last := if s.lastActivity.Some? && s.lastActivity.value > now then s.lastActivity.value else now;
          old(sandboxes)[id := s.(count := s.count + 1, lastActivity := Some(last))]
    {
      registered := id in sandboxes && sandboxes[id].state == UserActive && sandboxes[id].user == Some(user);
      if registered {
        var s := sandboxes[id];
        var last := now;
        if s.lastActivity.Some? && s.lastActivity.value > now { last := s.lastActivity.value; }
        sandboxes := sandboxes[id := s.(count := s.count + 1, lastActivity := Some(last))];
      }
    }

    /** Counts below one are refused before the store is touched. */
    method UnregisterActive(id: string, count: int) returns (r: Result<bool>)
      modifies this
      ensures r.Err? <==> count <= 0
      ensures count > 0 ==> sandboxes == Unregister(old(sandboxes), id, count)
      ensures count > 0 ==> r == Ok(id in old(sandboxes) && old(sandboxes)[id].count >= count)
      ensures sandboxes ==
        if r == Ok(true) then old(sandboxes)[id := old(sandboxes)[id].(count := old(sandboxes)[id].count - count)]
        else old(sandboxes)
    {
      if count <= 0 { return Err("count must be positive"); }
      if id !in sandboxes || sandboxes[id].count < count { return Ok(false); }
      sandboxes := sandboxes[id := sandboxes[id].(count := sandboxes[id].count - count)];
      r := Ok(true);
    }

    method ClaimIdleSandbox(id: string, cutoff: int) returns (claimed: bool)
      modifies this
      ensures claimed == CanClaim(old(sandboxes), id, cutoff)
      ensures sandboxes == Claim(old(sandboxes), id, cutoff)
      ensures claimed <==>
        && id in old(sandboxes)
        && var s := old(sandboxes)[id];
           && s.state == UserActive && s.count == 0
           && (if s.lastActivity.Some? then s.lastActivity.value else s.bindAt) <= cutoff
      ensures sandboxes ==
        if claimed then old(sandboxes)[id := old(sandboxes)[id].(state := Retiring)] else old(sandboxes)
    {
      claimed := false;
      if id in sandboxes {
        var s := sandboxes[id];
        var idle := if s.lastActivity.Some? then s.lastActivity.value <= cutoff else s.bindAt <= cutoff;
        if s.state == UserActive && s.count == 0 && idle {
          sandboxes := sandboxes[id := s.(state := Retiring)];
          claimed := true;
        }
      }
    }

    method GetByState(state: Life) returns (ids: seq<string>)
      ensures forall id :: id in ids <==> id in sandboxes && sandboxes[id].state == state
      ensures Distinct(ids)
    {
      ids := [];
      var left := sandboxes.Keys;
      while left != {}
        invariant left <= sandboxes.Keys
        invariant forall id :: id in ids <==> id in sandboxes && id !in left && sandboxes[id].state == state
        invariant Distinct(ids)
        decreases |left|
      {
        var id :| id in left;
        if sandboxes[id].state == state { ids := ids + [id]; }
        left := left - {id};
      }
    }

    /** The claims of one reclaim round: every active sandbox is tried and exactly the claimable ones
        retire. What is handed on to be reclaimed is every retiring sandbox - those retired in this very
        round twice, because the query for retiring sandboxes finds them again. */
    method ClaimRound(cutoff: int) returns (retiring: seq<string>)
      modifies this
      ensures forall id :: id in old(sandboxes) ==>
                id in sandboxes
                && sandboxes[id] == if CanClaim(old(sandboxes), id, cutoff)
                                    then old(sandboxes)[id].(state := Retiring) else old(sandboxes)[id]
      ensures sandboxes.Keys == old(sandboxes).Keys
      ensures forall id {:trigger multiset(retiring)[id]} ::
                multiset(retiring)[id] == if id !in sandboxes || sandboxes[id].state != Retiring then 0
                                          else if CanClaim(old(sandboxes), id, cutoff) then 2 else 1
    {
      var active := GetByState(UserActive);
      retiring := [];
      for k := 0 to |active|
        invariant sandboxes.Keys == old(sandboxes).Keys
        invariant forall id :: id in sandboxes ==>
          sandboxes[id] == if id in active[..k] && CanClaim(old(sandboxes), id, cutoff)
                           then old(sandboxes)[id].(state := Retiring) else old(sandboxes)[id]
        invariant forall id :: id in retiring <==> id in active[..k] && CanClaim(old(sandboxes), id, cutoff)
        invariant Distinct(retiring)
      {
        var claimed := ClaimIdleSandbox(active[k], cutoff);
        assert active[..k + 1] == active[..k] + [active[k]];
        assert active[k] !in active[..k];
        if claimed { retiring := retiring + [active[k]]; }
      }
      assert active[..|active|] == active;
      var stored := GetByState(Retiring);
      DistinctCounts(retiring);
      DistinctCounts(stored);
      assert multiset(retiring + stored) == multiset(retiring) + multiset(stored);
      retiring := retiring + stored;
    }
  }
}
