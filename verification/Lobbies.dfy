/** One lobby and the branches of its sequencer (internal/lobby/lobby.go). */
module Lobbies {
  import opened Wrappers
  import opened SessionMembers
  import opened Sessions
  import opened Commands

  class Lobby {
    const id: LobbyId
    const sessions: SessionRepository
    var running: bool       // the flag of the entity held in memory
    var stopped: bool       // the lobby context is done

    ghost predicate Valid()
      reads this, sessions
    {
      sessions.Valid()
    }

    ghost function Members(): map<SessionId, Member>
      reads this, sessions
    {
      sessions.Members()
    }

    constructor (id: LobbyId)
      ensures this.id == id && running && !stopped && Valid() && Members() == map[] && fresh(sessions)
    {
      this.id := id;
      sessions := new SessionRepository();
      running, stopped := true, false;
    }

    method Stop()
      modifies this`stopped
      ensures stopped
    {
      stopped := true;
    }

    /** The creator branch; `session` is the session made for the request, with a fresh id. */
    method OnCreate(session: Session) returns (ok: bool)
      requires Valid() && session.id !in sessions.sessions
      modifies sessions
      ensures Valid()
      ensures ok <==> !stopped && !HasUser(old(Members()), session.user)
      ensures Members() == if ok then old(Members())[session.id := Member(session.user, session.kind)] else old(Members())
      ensures sessions.sessions == if ok then old(sessions.sessions)[session.id := session] else old(sessions.sessions)
    {
      if stopped {
        return false;
      }
      ok := sessions.New(session);
    }

    /** The garbage branch; with no user session left it asks the manager to delete the lobby. */
    method OnGarbage(user: UserId) returns (ok: bool, asks: bool)
      requires Valid()
      modifies sessions
      ensures Valid()
      ensures ok <==> HasUser(old(Members()), user)
      ensures Members() == WithoutUser(old(Members()), user)
      ensures forall k :: k in Members() <==> k in old(Members()) && old(Members())[k].user != user
      ensures forall k :: k in Members() ==> Members()[k] == old(Members())[k]
      ensures forall k :: k in sessions.sessions ==> k in old(sessions.sessions) && sessions.sessions[k] == old(sessions.sessions)[k]
      ensures asks <==> forall k :: k in Members() ==> Members()[k].kind != UserSession
    {
      ok := sessions.DeleteByUser(user);
      var n := sessions.LenUserSession();
      asks := n == 0;
      assert forall k :: k in UserSessions(Members()) <==> k in Members() && Members()[k].kind == UserSession;
      assert n == 0 <==> UserSessions(Members()) == {};
    }

    /** Sessions the command's user may own. */
    ghost function Candidates(user: UserId): set<Session>
      reads this, sessions
    {
      set k | k in sessions.sessions && sessions.sessions[k].user == user :: sessions.sessions[k]
    }

    /** What those sessions would answer to a command. */
    ghost function Answers(user: UserId, creates: Creates, outside: Outside): set<Result<Resource, SessionError>>
      reads this, sessions, Candidates(user)
    {
      set s | s in Candidates(user) :: Outcome(creates, s.id, s.stopped, s.ingress != null, s.egress != null, outside)
    }

    /** The submission of a command: the sequencer takes it, or the lobby is stopped. */
    method RunCommand(cmd: CreateCommand, taken: bool, outside: Outside) returns (ghost ending: Ending)
      requires Valid() && (!taken ==> stopped)
      requires forall s :: s in Candidates(cmd.user) ==>
        (outside.wait.Arrived? ==> s.signal.received) && (outside.established != null ==> outside.established.sessionId == s.id)
      modifies cmd, Candidates(cmd.user), set s | s in Candidates(cmd.user) :: s.signal
      ensures ending.Refused? <==> stopped
      ensures ending.Homeless? <==> !stopped && !HasUser(Members(), cmd.user)
      ensures ending.Ran? ==> old(Answers(cmd.user, cmd.creates, outside)) == {ending.result}
      ensures ending.Ran? && ending.result.Ok? ==>
        outside.answer.Some? && ending.result.value.sdp == outside.answer.value &&
        forall s :: s in Candidates(cmd.user) ==> ending.result.value.id == s.id
      ensures forall s :: s in old(Candidates(cmd.user)) ==>
        && s.ingress == (if ending.Ran? && cmd.creates.CreatesIngress? && !s.stopped && old(s.ingress) == null
                         then outside.established else old(s.ingress))
        && s.egress == (if ending.Ran? && cmd.creates.CreatesEgress? && !s.stopped && old(s.egress) == null && s.ingress != null
                           && outside.wait.Arrived? then outside.established else old(s.egress))
        && s.signal.offerer == (if s.egress == old(s.egress) then old(s.signal.offerer) else s.egress)
      ensures cmd.Value() == CalledAll(old(cmd.Value()), Submission(ending))
      ensures old(cmd.Value()) == NewCommand ==> cmd.Value() == Complete(ending) && ExactlyOne(cmd.Value())
      ensures old(cmd.Value()) == NewCommand ==>
        match ending
        case Refused => cmd.errors == [LobbyClosed] && cmd.response.None?
        case Homeless => cmd.errors == [NoSession] && cmd.response.None?
        case Ran(Ok(resource)) => cmd.errors == [] && cmd.response == Some(resource)
        case Ran(Err(e)) => cmd.errors == [SessionFailed(e)] && cmd.response.None?
      ensures old(cmd.Value()) == NewCommand ==> cmd.done && cmd.closes == 1
    {
      if taken {
        ending := OnCommand(cmd, outside);
      } else {
        cmd.SetError(LobbyClosed);
        ending := Refused;
      }
    }

    /** The command branch: the session's answer, or the reason there is none, decides how the command ends. */
    method OnCommand(cmd: CreateCommand, outside: Outside) returns (ghost ending: Ending)
      requires Valid()
      requires forall s :: s in Candidates(cmd.user) ==>
        (outside.wait.Arrived? ==> s.signal.received) && (outside.established != null ==> outside.established.sessionId == s.id)
      modifies cmd, Candidates(cmd.user), set s | s in Candidates(cmd.user) :: s.signal
      ensures ending.Refused? <==> stopped
      ensures ending.Homeless? <==> !stopped && !HasUser(Members(), cmd.user)
      ensures ending.Ran? ==> old(Answers(cmd.user, cmd.creates, outside)) == {ending.result}
      ensures ending.Ran? && ending.result.Ok? ==>
        outside.answer.Some? && ending.result.value.sdp == outside.answer.value &&
        forall s :: s in Candidates(cmd.user) ==> ending.result.value.id == s.id
      ensures forall s :: s in old(Candidates(cmd.user)) ==>
        && s.ingress == (if ending.Ran? && cmd.creates.CreatesIngress? && !s.stopped && old(s.ingress) == null
                         then outside.established else old(s.ingress))
        && s.egress == (if ending.Ran? && cmd.creates.CreatesEgress? && !s.stopped && old(s.egress) == null && s.ingress != null
                           && outside.wait.Arrived? then outside.established else old(s.egress))
        && s.signal.offerer == (if s.egress == old(s.egress) then old(s.signal.offerer) else s.egress)
      ensures cmd.Value() == CalledAll(old(cmd.Value()), Submission(ending))
      ensures old(cmd.Value()) == NewCommand ==> cmd.Value() == Complete(ending) && ExactlyOne(cmd.Value())
      ensures old(cmd.Value()) == NewCommand ==>
        match ending
        case Refused => cmd.errors == [LobbyClosed] && cmd.response.None?
        case Homeless => cmd.errors == [NoSession] && cmd.response.None?
        case Ran(Ok(resource)) => cmd.errors == [] && cmd.response == Some(resource)
        case Ran(Err(e)) => cmd.errors == [SessionFailed(e)] && cmd.response.None?
      ensures old(cmd.Value()) == NewCommand ==> cmd.done && cmd.closes == 1
    {
      if stopped {
        cmd.SetError(LobbyClosed);
        ending := Refused;
      } else {
        ending := Handle(cmd, outside);
      }
      if old(cmd.Value()) == NewCommand {
        CompletesOnce(ending, []);
        assert Submission(ending) + [] == Submission(ending);
      }
    }

    method Handle(cmd: CreateCommand, outside: Outside) returns (ghost ending: Ending)
      requires Valid()
      requires forall s :: s in Candidates(cmd.user) ==>
        (outside.wait.Arrived? ==> s.signal.received) && (outside.established != null ==> outside.established.sessionId == s.id)
      modifies cmd, Candidates(cmd.user), set s | s in Candidates(cmd.user) :: s.signal
      ensures !ending.Refused? && (ending.Homeless? <==> !HasUser(Members(), cmd.user))
      ensures ending.Ran? ==> old(Answers(cmd.user, cmd.creates, outside)) == {ending.result}
      ensures ending.Ran? && ending.result.Ok? ==>
        outside.answer.Some? && ending.result.value.sdp == outside.answer.value &&
        forall s :: s in Candidates(cmd.user) ==> ending.result.value.id == s.id
      ensures forall s :: s in old(Candidates(cmd.user)) ==>
        && s.ingress == (if ending.Ran? && cmd.creates.CreatesIngress? && !s.stopped && old(s.ingress) == null
                         then outside.established else old(s.ingress))
        && s.egress == (if ending.Ran? && cmd.creates.CreatesEgress? && !s.stopped && old(s.egress) == null && s.ingress != null
                           && outside.wait.Arrived? then outside.established else old(s.egress))
        && s.signal.offerer == (if s.egress == old(s.egress) then old(s.signal.offerer) else s.egress)
      ensures cmd.Value() == CalledAll(old(cmd.Value()), Submission(ending))
    {
      var session := sessions.FindByUserId(cmd.user);
      if session != null {
        assert session in Candidates(cmd.user);
        forall s | s in Candidates(cmd.user) ensures s == session {
          var k :| k in sessions.sessions && sessions.sessions[k] == s && s.user == cmd.user;
          assert Members()[k].user == Members()[session.id].user;
        }
        assert Candidates(cmd.user) == {session};
        ghost var result := cmd.ExecuteOn(session, outside);
        ending := Ran(result);
        assert Submission(ending)[..1] == [Execute(result)];
        assert CalledAll(old(cmd.Value()), [Execute(result)]) == Executed(old(cmd.Value()), result);
      } else {
        ending := Homeless;
      }
      cmd.SetError(NoSession);
    }
  }
}
