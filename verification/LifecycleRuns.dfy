/** What holds of lobbies over every run of lookups, sequencers and the manager. */
module LifecycleRuns {
  import opened Wrappers
  import opened SessionMembers
  import opened LobbyRegistry
  import opened Lifecycle
  import opened LifecycleInv
  import opened Runs

  ghost function Next(s: State, a: Action): Option<State> {
    if Enabled(s, a) then Some(Do(s, a)) else None
  }

  ghost predicate IsRun(states: seq<State>, actions: seq<Action>) {
    IsPath(Next, states, actions) && Init(states[0])
  }

  lemma RunKeepsInv(states: seq<State>, actions: seq<Action>, i: nat)
    requires IsRun(states, actions) && i < |states|
    ensures Inv(states[i])
  {
    forall s, a | Inv(s) && Enabled(s, a) ensures Inv(Do(s, a)) {
      StepKeepsInv(s, a);
    }
    Keeps(Next, Inv, states, actions, 0, i);
  }

  ghost predicate IsRegistered(s: State, r: Ref) {
    r in s.lobs && Registered(s.registry.lobbies, r, s.lobs[r])
  }

  ghost predicate IsStopped(s: State, r: Ref) {
    r in s.lobs && s.lobs[r].stopped
  }

  // One state

  /** At any time at most one lobby object per id is running. */
  lemma AtMostOneRunning(states: seq<State>, actions: seq<Action>, i: nat, r1: Ref, r2: Ref)
    requires IsRun(states, actions) && i < |states| && r1 in states[i].lobs && r2 in states[i].lobs
    requires states[i].lobs[r1].id == states[i].lobs[r2].id
    requires !states[i].lobs[r1].stopped && !states[i].lobs[r2].stopped
    ensures r1 == r2
  {
    RunKeepsInv(states, actions, i);
    assert Inside(states[i], r1) && Inside(states[i], r2);
  }

  /** A delete request only ever meets the lobby object that sent it, still registered and running; past the check
      that lobby is empty. */
  lemma RequestMeetsItsLobby(states: seq<State>, actions: seq<Action>, i: nat)
    requires IsRun(states, actions) && i < |states|
    ensures var s, m := states[i], states[i].manager;
      && (forall r :: r in s.requests ==> IsRegistered(s, r) && !IsStopped(s, r))
      && (m.Taken? || m.Saving? || m.Removing? ==> IsRegistered(s, m.from) && !IsStopped(s, m.from))
      && (m.Saving? || m.Removing? || m.Stopping? ==> m.target == m.from && m.from in s.lobs && s.lobs[m.from].members == map[])
  {
    RunKeepsInv(states, actions, i);
    var s := states[i];
    forall r | r in s.requests ensures IsRegistered(s, r) && !IsStopped(s, r) {
      assert Inside(s, r);
    }
    if !s.manager.Idle? {
      assert Inside(s, s.manager.from);
    }
  }

  /** While a sequencer waits, the manager has a step to take. */
  lemma WaitingIsServed(states: seq<State>, actions: seq<Action>, i: nat, r: Ref)
    requires IsRun(states, actions) && i < |states| && r in states[i].lobs && states[i].lobs[r].pc.Awaiting?
    ensures var s := states[i];
      match s.manager
      case Idle => Enabled(s, Take(r))
      case Taken(_) => Enabled(s, Check)
      case Saving(_, _) => forall ok :: Enabled(s, Save(ok))
      case Removing(_, _) => Enabled(s, Unregister)
      case Stopping(_, _) => Enabled(s, StopTarget)
      case Answering(from, _) => Enabled(s, Answer) && s.lobs[from].pc.Awaiting?
  {
    RunKeepsInv(states, actions, i);
    assert Inside(states[i], r);
    if !states[i].manager.Idle? {
      assert Inside(states[i], states[i].manager.from);
    }
  }

  // Every request is answered

  ghost predicate ByManager(a: Action) {
    a.Take? || a.Check? || a.Save? || a.Unregister? || a.StopTarget? || a.Answer?
  }

  /** The most steps the manager has still to make for the requests at hand. */
  ghost function Work(s: State): nat {
    6 * |s.requests| + Ahead(s.manager)
  }

  ghost function Ahead(m: Manager): nat {
    match m
    case Idle => 0
    case Taken(_) => 5
    case Saving(_, _) => 4
    case Removing(_, _) => 3
    case Stopping(_, _) => 2
    case Answering(_, _) => 1
  }

  /** The step sends a new delete request. */
  ghost predicate Asks(s: State, a: Action) {
    a.Remove? && a.r in s.lobs && AfterRemove(s.lobs[a.r], a.user).pc.Awaiting?
  }

  /** What a step does to the requests and how far the manager has got. */
  lemma StepRequests(s: State, a: Action)
    requires Enabled(s, a)
    ensures var s' := Do(s, a);
      && s'.requests == (if a.Take? then s.requests - {a.r} else if Asks(s, a) then s.requests + {a.r} else s.requests)
      && (a.Take? ==> a.r in s.requests && s.manager.Idle? && s'.manager.Taken?)
      && (ByManager(a) && !a.Take? ==> Ahead(s'.manager) < Ahead(s.manager))
      && (!ByManager(a) ==> s'.manager == s.manager)
  {
  }

  lemma StepWork(s: State, a: Action)
    requires Inv(s) && Enabled(s, a)
    ensures ByManager(a) ==> Work(Do(s, a)) < Work(s)
    ensures !ByManager(a) ==> Work(Do(s, a)) == Work(s) + if Asks(s, a) then 6 else 0
  {
    StepRequests(s, a);
    if a.Take? {
      assert |s.requests - {a.r}| == |s.requests| - 1;
    } else if Asks(s, a) {
      assert Inside(s, a.r);
      assert a.r !in s.requests;
    }
  }

  ghost function ManagerSteps(actions: seq<Action>, i: nat, j: nat): nat
    requires i <= j <= |actions|
  {
    if i == j then 0 else ManagerSteps(actions, i, j - 1) + if ByManager(actions[j-1]) then 1 else 0
  }

  ghost function Requested(states: seq<State>, actions: seq<Action>, i: nat, j: nat): nat
    requires i <= j <= |actions| < |states|
  {
    if i == j then 0 else Requested(states, actions, i, j - 1) + if Asks(states[j-1], actions[j-1]) then 1 else 0
  }

  lemma {:induction false} WorkAccounts(states: seq<State>, actions: seq<Action>, i: nat, j: nat)
    requires IsRun(states, actions) && i <= j < |states|
    ensures ManagerSteps(actions, i, j) + Work(states[j]) <= Work(states[i]) + 6 * Requested(states, actions, i, j)
  {
    if i < j {
      WorkAccounts(states, actions, i, j - 1);
      RunKeepsInv(states, actions, j - 1);
      assert Next(states[j-1], actions[j-1]) == Some(states[j]);
      StepWork(states[j-1], actions[j-1]);
    }
  }

  /** Every request is answered: while any sequencer waits, the manager has made fewer steps than it needs for the
      requests at hand earlier and those sent since; once it has made that many, nobody waits. */
  lemma AnsweredInTime(states: seq<State>, actions: seq<Action>, i: nat, j: nat, r: Ref)
    requires IsRun(states, actions) && i <= j < |states| && r in states[j].lobs && states[j].lobs[r].pc.Awaiting?
    ensures ManagerSteps(actions, i, j) < Work(states[i]) + 6 * Requested(states, actions, i, j)
  {
    WorkAccounts(states, actions, i, j);
    RunKeepsInv(states, actions, j);
    assert Inside(states[j], r);
    assert Work(states[j]) > 0;
  }

  /** Persisted state agrees with memory whenever the registry lock is free, failed saves included. */
  lemma RowsAgreeWhenUnlocked(states: seq<State>, actions: seq<Action>, i: nat)
    requires IsRun(states, actions) && i < |states| && LockFree(states[i].manager)
    ensures RowsAgree(states[i].registry)
  {
    RunKeepsInv(states, actions, i);
  }

  // From one state on

  /** A step never unstops a lobby object, gives it another id, or drops it; only an unregistration takes an id out. */
  lemma StepOnlyGrows(s: State, a: Action, r: Ref)
    requires Enabled(s, a) && r in s.lobs
    ensures var s' := Do(s, a);
      && r in s'.lobs && s'.lobs[r].id == s.lobs[r].id && (s.lobs[r].stopped ==> s'.lobs[r].stopped)
      && (!a.Unregister? ==> forall id :: id in s.registry.lobbies ==>
            id in s'.registry.lobbies && s'.registry.lobbies[id] == s.registry.lobbies[id])
  {
  }

  /** Out of the registry, and stopped if `stopped` says so. */
  ghost predicate Dead(s: State, r: Ref, stopped: bool) {
    Inv(s) && r in s.lobs && !IsRegistered(s, r) && (stopped ==> IsStopped(s, r))
  }

  lemma StepKeepsDead(s: State, a: Action, r: Ref, stopped: bool)
    requires Dead(s, r, stopped) && Enabled(s, a)
    ensures Dead(Do(s, a), r, stopped)
  {
    StepKeepsInv(s, a);
    assert Inside(s, r);
  }

  /** No split brain: a lobby object that has left the registry holds no session and never comes back; it is stopped
      whenever the registry lock is free, and from then on. */
  lemma UnregisteredStaysDead(states: seq<State>, actions: seq<Action>, i: nat, j: nat, r: Ref)
    requires IsRun(states, actions) && i <= j < |states| && r in states[i].lobs && !IsRegistered(states[i], r)
    ensures r in states[j].lobs && !IsRegistered(states[j], r) && states[j].lobs[r].members == map[]
    ensures LockFree(states[i].manager) ==> IsStopped(states[j], r)
  {
    RunKeepsInv(states, actions, i);
    assert Inside(states[i], r);
    var stopped := LockFree(states[i].manager);
    forall s, a | Dead(s, r, stopped) && Enabled(s, a) ensures Dead(Do(s, a), r, stopped) {
      StepKeepsDead(s, a, r, stopped);
    }
    Keeps(Next, s => Dead(s, r, stopped), states, actions, i, j);
    assert Inside(states[j], r);
  }

  /** Stopped, and registered if `registered` says so. */
  ghost predicate Halted(s: State, r: Ref, registered: bool) {
    Inv(s) && IsStopped(s, r) && (registered ==> IsRegistered(s, r))
  }

  /** An unregistration meets a lobby that still runs. */
  lemma UnregisterSparesStopped(s: State, r: Ref)
    requires Halted(s, r, true) && Enabled(s, Unregister)
    ensures IsRegistered(Do(s, Unregister), r)
  {
    assert Inside(s, r);
    assert Inside(s, s.manager.from);
  }

  lemma StepKeepsHalted(s: State, a: Action, r: Ref, registered: bool)
    requires Halted(s, r, registered) && Enabled(s, a)
    ensures Halted(Do(s, a), r, registered)
  {
    StepKeepsInv(s, a);
    StepOnlyGrows(s, a, r);
    if a.Unregister? && registered {
      UnregisterSparesStopped(s, r);
    }
  }

  /** A stopped lobby stays stopped and never holds a user session again; and if it is registered, it stays so: its id
      is served by a stopped lobby for ever. */
  lemma StoppedStaysStopped(states: seq<State>, actions: seq<Action>, i: nat, j: nat, r: Ref)
    requires IsRun(states, actions) && i <= j < |states| && IsStopped(states[i], r)
    ensures IsStopped(states[j], r)
    ensures forall k :: k in states[j].lobs[r].members ==> states[j].lobs[r].members[k].kind != UserSession
    ensures IsRegistered(states[i], r) ==> IsRegistered(states[j], r)
  {
    RunKeepsInv(states, actions, i);
    var registered := IsRegistered(states[i], r);
    forall s, a | Halted(s, r, registered) && Enabled(s, a) ensures Halted(Do(s, a), r, registered) {
      StepKeepsHalted(s, a, r, registered);
    }
    Keeps(Next, s => Halted(s, r, registered), states, actions, i, j);
    assert Inside(states[j], r);
    assert forall k :: k in states[j].lobs[r].members ==> k !in UserSessions(states[j].lobs[r].members);
  }

  // Why a lobby is both registered and stopped

  /** Step `i` decides to refuse the request of `r`: the lobby still holds a session, none of them a user's, or the
      row could not be saved. */
  ghost predicate Refuses(states: seq<State>, actions: seq<Action>, i: nat, r: Ref)
    requires IsRun(states, actions) && i < |actions|
  {
    var s := states[i];
    || (actions[i].Check? && s.manager.from == r && s.lobs[r].members != map[])
    || (actions[i] == Save(false) && s.manager.from == r)
  }

  ghost predicate ToldNo(s: State, r: Ref) {
    r in s.refused || s.manager == Answering(r, false)
  }

  lemma RefusalStep(states: seq<State>, actions: seq<Action>, i: nat, r: Ref)
    requires IsRun(states, actions) && i < |actions|
    ensures ToldNo(states[i+1], r) <==> ToldNo(states[i], r) || Refuses(states, actions, i, r)
  {
    RunKeepsInv(states, actions, i);
    var s := states[i];
    assert Next(s, actions[i]) == Some(states[i+1]);
    if !s.manager.Idle? {
      assert Inside(s, s.manager.from);
    }
  }

  lemma {:induction false} ToldNoIff(states: seq<State>, actions: seq<Action>, i: nat, r: Ref)
    requires IsRun(states, actions) && i < |states|
    ensures ToldNo(states[i], r) <==> exists j :: 0 <= j < i && Refuses(states, actions, j, r)
  {
    if i > 0 {
      ToldNoIff(states, actions, i - 1, r);
      RefusalStep(states, actions, i - 1, r);
    }
  }

  /** A stopped lobby is still registered exactly when its own delete request was refused. */
  lemma StoppedButRegisteredIff(states: seq<State>, actions: seq<Action>, i: nat, r: Ref)
    requires IsRun(states, actions) && i < |states| && IsStopped(states[i], r)
    ensures IsRegistered(states[i], r) <==> exists j :: 0 <= j < i && Refuses(states, actions, j, r)
  {
    RunKeepsInv(states, actions, i);
    ToldNoIff(states, actions, i, r);
    assert Inside(states[i], r);
  }

  /** A check that refuses found sessions, but no user's. */
  lemma RefusedForOthersSake(states: seq<State>, actions: seq<Action>, i: nat, r: Ref)
    requires IsRun(states, actions) && i < |actions| && Refuses(states, actions, i, r) && actions[i].Check?
    ensures forall k :: k in states[i].lobs[r].members ==> states[i].lobs[r].members[k].kind != UserSession
    ensures exists k :: k in states[i].lobs[r].members && states[i].lobs[r].members[k].kind != UserSession
  {
    RunKeepsInv(states, actions, i);
    assert Inside(states[i], r);
    var members := states[i].lobs[r].members;
    assert forall k :: k in members ==> k !in UserSessions(members);
    var k :| k in members;
  }

  // Runs with user sessions only and successful saves

  ghost predicate Plain(a: Action) {
    (a.CheckOpen? ==> a.member.kind == UserSession) && a != Save(false)
  }

  ghost predicate UsersOnly(l: Lob) {
    && (forall k :: k in l.members ==> l.members[k].kind == UserSession)
    && (l.pc.Admitting? ==> l.pc.member.kind == UserSession)
  }

  lemma {:induction false} PlainRunHasUsersOnly(states: seq<State>, actions: seq<Action>, i: nat, r: Ref)
    requires IsRun(states, actions) && i < |states| && (forall j :: 0 <= j < i ==> Plain(actions[j])) && r in states[i].lobs
    ensures UsersOnly(states[i].lobs[r])
  {
    if i > 0 {
      assert Next(states[i-1], actions[i-1]) == Some(states[i]);
      if r in states[i-1].lobs {
        PlainRunHasUsersOnly(states, actions, i - 1, r);
      }
    }
  }

  /** Then every registered lobby is running. */
  lemma RegisteredIsRunning(states: seq<State>, actions: seq<Action>, i: nat, r: Ref)
    requires IsRun(states, actions) && i < |states| && (forall j :: 0 <= j < i ==> Plain(actions[j])) && IsRegistered(states[i], r)
    ensures !IsStopped(states[i], r)
  {
    if IsStopped(states[i], r) {
      StoppedButRegisteredIff(states, actions, i, r);
      var j :| 0 <= j < i && Refuses(states, actions, j, r);
      assert Plain(actions[j]);
      RefusedForOthersSake(states, actions, j, r);
      PlainRunHasUsersOnly(states, actions, j, r);
      assert false;
    }
  }

  // `delete` as one step

  /** Left alone, the steps of the manager amount to the one `delete` they split: it takes effect exactly when the
      lobby is empty and the row is saved. */
  lemma DeleteStepsCompose(states: seq<State>, actions: seq<Action>, i: nat, saved: bool)
    requires IsRun(states, actions) && i < |states| && states[i].manager.Taken?
    ensures var s, r := states[i], states[i].manager.from;
      && r in s.lobs && Enabled(s, Check)
      && var s1 := Do(s, Check);
      if s.lobs[r].members != map[] then s1 == s.(manager := Answering(r, false))
      else
        && Enabled(s1, Save(saved))
        && var s2 := Do(s1, Save(saved));
        if !saved then s2 == s.(manager := Answering(r, false))
        else
          && Enabled(s2, Unregister) && Enabled(Do(s2, Unregister), StopTarget)
          && Do(Do(s2, Unregister), StopTarget) ==
             s.(registry := Registry(s.registry.lobbies - {s.lobs[r].id}, s.registry.running - {s.lobs[r].id}), lobs := s.lobs[r := s.lobs[r].(stopped := true)],
                manager := Answering(r, true))
  {
    RunKeepsInv(states, actions, i);
    assert Inside(states[i], states[i].manager.from);
  }

  // A stopped lobby that stays registered does occur

  ghost function Opened(id: LobbyId, l: Lob): State {
    State(map[0 := l], Registry(map[id := 0], {id}), {}, Idle, {})
  }

  lemma InstanceJoins(id: LobbyId, m: Member) returns (states: seq<State>, actions: seq<Action>)
    ensures IsRun(states, actions) && states[|actions|] == Opened(id, Lob(id, false, map[0 := m], Selecting))
  {
    states, actions := [State(map[], Registry(map[], {}), {}, Idle, {})], [];
    states, actions := Extend(Next, states, actions, GetOrCreate(id, 0, true));
    states, actions := Extend(Next, states, actions, CheckOpen(0, 0, m));
    states, actions := Extend(Next, states, actions, Admit(0));
  }

  lemma UserJoins(states0: seq<State>, actions0: seq<Action>, id: LobbyId, m: Member, user: UserId)
    returns (states: seq<State>, actions: seq<Action>)
    requires IsRun(states0, actions0) && states0[|actions0|] == Opened(id, Lob(id, false, map[0 := m], Selecting)) && m.user != user
    ensures IsRun(states, actions)
    ensures states[|actions|] == Opened(id, Lob(id, false, map[0 := m, 1 := Member(user, UserSession)], Selecting))
  {
    states, actions := Extend(Next, states0, actions0, CheckOpen(0, 1, Member(user, UserSession)));
    states, actions := Extend(Next, states, actions, Admit(0));
  }

  lemma RefusedRun(states0: seq<State>, actions0: seq<Action>, id: LobbyId, m: Member)
    returns (states: seq<State>, actions: seq<Action>)
    requires IsRun(states0, actions0)
    requires states0[|actions0|] == Opened(id, Lob(id, false, map[0 := m], Awaiting)).(requests := {0})
    ensures IsRun(states, actions)
    ensures states[|actions|] == Opened(id, Lob(id, true, map[0 := m], Selecting)).(refused := {0})
  {
    states, actions := Extend(Next, states0, actions0, Take(0));
    assert 0 in map[0 := m];
    states, actions := Extend(Next, states, actions, Check);
    assert states[|actions|].manager == Answering(0, false);
    states, actions := Extend(Next, states, actions, Answer);
    states, actions := Extend(Next, states, actions, StopSelf(0));
  }

  /** A lobby that serves an instance session stops for good when its last user leaves, and stays registered and
      marked running. */
  lemma StoppedButRegisteredHappens(id: LobbyId, m: Member, user: UserId)
    requires m.kind != UserSession && m.user != user
    ensures exists states: seq<State>, actions: seq<Action> ::
      && IsRun(states, actions) && IsRegistered(states[|actions|], 0) && IsStopped(states[|actions|], 0)
      && states[|actions|].lobs[0].members == map[0 := m] && states[|actions|].registry.running == {id}
  {
    var states, actions := InstanceJoins(id, m);
    states, actions := UserJoins(states, actions, id, m, user);
    assert WithoutUser(map[0 := m, 1 := Member(user, UserSession)], user) == map[0 := m];
    assert UserSessions(map[0 := m]) == {};
    states, actions := Extend(Next, states, actions, Remove(0, user));
    states, actions := RefusedRun(states, actions, id, m);
  }
}
