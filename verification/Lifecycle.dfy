/** Every interleaving of lobby lookups, the sequencers of all lobby objects and the manager's delete loop.
    `delete` is split into check, save, remove and stop, a session request into check and admission. The registry
    lock is held from the check to the end of `delete`, and over the whole of getOrCreateLobby. */
module Lifecycle {
  import opened Wrappers
  import opened SessionMembers
  import opened LobbyRegistry

  /** One lobby object, however many the id has had. */
  type Ref = nat

  /** A sequencer: at its select, between the check and the insertion of a new session, waiting for the manager,
      past the manager's answer, returned. */
  datatype Pc = Selecting | Admitting(session: SessionId, member: Member) | Awaiting | Replied | Returned

  datatype Lob = Lob(id: LobbyId, stopped: bool, members: map<SessionId, Member>, pc: Pc)

  datatype Manager =
    | Idle
    | Taken(from: Ref)                  // a request taken, the lock not yet
    | Saving(from: Ref, target: Ref)    // found empty, row not yet saved
    | Removing(from: Ref, target: Ref)  // row saved, still registered
    | Stopping(from: Ref, target: Ref)  // unregistered, not yet stopped
    | Answering(from: Ref, ok: bool)    // lock released, answer not yet delivered

  /** `requests` are the delete requests offered to the manager. `refused` is history: lobbies told no. */
  datatype State = State(
    lobs: map<Ref, Lob>, registry: Registry<Ref>, requests: set<Ref>, manager: Manager, refused: set<Ref>)

  datatype Action =
    | GetOrCreate(id: LobbyId, newRef: Ref, saved: bool)
    | CheckOpen(r: Ref, session: SessionId, member: Member) | Admit(r: Ref)
    | Remove(r: Ref, user: UserId)
    | Take(r: Ref) | Check | Save(saved: bool) | Unregister | StopTarget | Answer
    | StopSelf(r: Ref) | Return(r: Ref)

  ghost predicate Init(s: State) {
    s == State(map[], Registry(map[], {}), {}, Idle, {})
  }

  ghost predicate LockFree(m: Manager) {
    m.Idle? || m.Taken? || m.Answering?
  }

  ghost predicate Enabled(s: State, a: Action) {
    match a
    case GetOrCreate(_, newRef, _) => LockFree(s.manager) && newRef !in s.lobs
    case CheckOpen(r, k, _) => r in s.lobs && s.lobs[r].pc.Selecting? && k !in s.lobs[r].members
    case Admit(r) => r in s.lobs && s.lobs[r].pc.Admitting?
    case Remove(r, _) => r in s.lobs && s.lobs[r].pc.Selecting? && !s.lobs[r].stopped
    case Take(r) => s.manager.Idle? && r in s.requests
    case Check => s.manager.Taken? && s.manager.from in s.lobs
    case Save(_) => s.manager.Saving?
    case Unregister => s.manager.Removing? && s.manager.target in s.lobs
    case StopTarget => s.manager.Stopping? && s.manager.target in s.lobs
    case Answer => s.manager.Answering? && s.manager.from in s.lobs
    case StopSelf(r) => r in s.lobs && s.lobs[r].pc.Replied?
    case Return(r) => r in s.lobs && s.lobs[r].pc.Selecting? && s.lobs[r].stopped
  }

  /** The garbage branch: remove the user's session, then ask for deletion if no user session is left. */
  ghost function AfterRemove(l: Lob, user: UserId): Lob {
    var rest := WithoutUser(l.members, user);
    l.(members := rest, pc := if UserSessions(rest) == {} then Awaiting else Selecting)
  }

  ghost function AfterAdmit(l: Lob): Lob
    requires l.pc.Admitting?
  {
    if HasUser(l.members, l.pc.member.user) then l.(pc := Selecting)
    else l.(members := l.members[l.pc.session := l.pc.member], pc := Selecting)
  }

  /** The manager under the lock: no such lobby, not empty, or on to saving. */
  ghost function AfterCheck(s: State): Manager
    requires Enabled(s, Check)
  {
    var from := s.manager.from;
    var id := s.lobs[from].id;
    if id !in s.registry.lobbies then Answering(from, false)
    else
      var target := s.registry.lobbies[id];
      if target in s.lobs && s.lobs[target].members == map[] then Saving(from, target) else Answering(from, false)
  }

  ghost function Do(s: State, a: Action): State
    requires Enabled(s, a)
  {
    match a
    case GetOrCreate(id, newRef, saved) =>
      if id in s.registry.lobbies || !saved then s
      else s.(lobs := s.lobs[newRef := Lob(id, false, map[], Selecting)], registry := Entered(s.registry, id, newRef))
    case CheckOpen(r, k, m) =>
      if s.lobs[r].stopped then s else s.(lobs := s.lobs[r := s.lobs[r].(pc := Admitting(k, m))])
    case Admit(r) => s.(lobs := s.lobs[r := AfterAdmit(s.lobs[r])])
    case Remove(r, user) =>
      var l := AfterRemove(s.lobs[r], user);
      s.(lobs := s.lobs[r := l], requests := if l.pc.Awaiting? then s.requests + {r} else s.requests)
    case Take(r) => s.(requests := s.requests - {r}, manager := Taken(r))
    case Check => s.(manager := AfterCheck(s))
    case Save(saved) =>
      if saved && s.manager.target in s.lobs then
        s.(registry := s.registry.(running := s.registry.running - {s.lobs[s.manager.target].id}),
           manager := Removing(s.manager.from, s.manager.target))
      else s.(manager := Answering(s.manager.from, false))
    case Unregister =>
      s.(registry := s.registry.(lobbies := s.registry.lobbies - {s.lobs[s.manager.target].id}),
         manager := Stopping(s.manager.from, s.manager.target))
    case StopTarget =>
      s.(lobs := s.lobs[s.manager.target := s.lobs[s.manager.target].(stopped := true)],
         manager := Answering(s.manager.from, true))
    case Answer =>
      var r := s.manager.from;
      s.(lobs := s.lobs[r := s.lobs[r].(pc := Replied)], manager := Idle,
         refused := if s.manager.ok then s.refused else s.refused + {r})
    case StopSelf(r) => s.(lobs := s.lobs[r := s.lobs[r].(stopped := true, pc := Selecting)])
    case Return(r) => s.(lobs := s.lobs[r := s.lobs[r].(pc := Returned)])
  }

  // The invariant

  ghost predicate Registered(reg: map<LobbyId, Ref>, r: Ref, l: Lob) {
    l.id in reg && reg[l.id] == r
  }

  /** The manager works on the request of `r`. */
  ghost predicate Serving(m: Manager, r: Ref) {
    !m.Idle? && m.from == r
  }

  /** The request of `r` has been granted: its lobby is out of the registry. */
  ghost predicate Granted(m: Manager, r: Ref) {
    (m.Stopping? && m.from == r) || (m.Answering? && m.from == r && m.ok)
  }

  /** What holds of one lobby object, given the manager and the registry. */
  ghost predicate LobInv(reg: map<LobbyId, Ref>, requests: set<Ref>, m: Manager, refused: set<Ref>, r: Ref, l: Lob) {
    && (l.pc.Awaiting? <==> r in requests || Serving(m, r))
    && UniqueUsers(l.members)
    && (l.pc.Admitting? ==> l.pc.session !in l.members)
    && Alive(reg, m, r, l)
    && Emptied(reg, m, r, l)
    && Refusals(reg, refused, r, l)
  }

  /** A lobby that has not asked yet, or whose request is not granted yet, is registered and running. */
  ghost predicate Alive(reg: map<LobbyId, Ref>, m: Manager, r: Ref, l: Lob) {
    && ((l.pc.Selecting? && !l.stopped) || l.pc.Admitting? ==> Registered(reg, r, l) && !l.stopped)
    && (l.pc.Awaiting? && !Granted(m, r) ==> Registered(reg, r, l) && !l.stopped)
    && (l.pc.Awaiting? && Granted(m, r) ==> !Registered(reg, r, l) && (l.stopped <==> m.Answering?))
    && (l.pc.Returned? ==> l.stopped)
    && (l.pc.Replied? ==> (Registered(reg, r, l) <==> !l.stopped))
  }

  ghost predicate Emptied(reg: map<LobbyId, Ref>, m: Manager, r: Ref, l: Lob) {
    && (l.stopped || l.pc.Awaiting? || l.pc.Replied? ==> UserSessions(l.members) == {})
    && (!Registered(reg, r, l) ==> l.members == map[])
    && ((m.Saving? || m.Removing?) && m.from == r ==> l.members == map[])
  }

  ghost predicate Refusals(reg: map<LobbyId, Ref>, refused: set<Ref>, r: Ref, l: Lob) {
    && (r in refused ==> Registered(reg, r, l) && (l.pc.Replied? || l.stopped))
    && (Registered(reg, r, l) && (l.pc.Replied? || l.stopped) ==> r in refused)
  }

  ghost predicate Inv(s: State) {
    && (forall r :: r in s.lobs ==> LobInv(s.registry.lobbies, s.requests, s.manager, s.refused, r, s.lobs[r]))
    && RegistryInv(s.registry, s.lobs, s.manager)
    && s.refused <= s.lobs.Keys && s.requests <= s.lobs.Keys
    && (!s.manager.Idle? ==> s.manager.from in s.lobs && s.manager.from !in s.requests)
    && (s.manager.Saving? || s.manager.Removing? || s.manager.Stopping? ==> s.manager.target == s.manager.from)
  }

  /** The rows agree with the registry but for the lobby between its save and its removal. */
  ghost predicate RegistryInv(reg: Registry<Ref>, lobs: map<Ref, Lob>, m: Manager) {
    && (forall id :: id in reg.lobbies ==> reg.lobbies[id] in lobs && lobs[reg.lobbies[id]].id == id)
    && (m.Stopping? ==> m.target in lobs && lobs[m.target].id !in reg.lobbies)
    && (if m.Removing? then m.target in lobs && reg.running == reg.lobbies.Keys - {lobs[m.target].id} else RowsAgree(reg))
  }
}
