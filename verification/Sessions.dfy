/** Sessions and the session repository (internal/lobby/sessions/session.go, session_repository.go). */
module Sessions {
  import opened Wrappers
  import opened TrackInfo
  import opened SessionMembers
  import opened Endpoint
  import opened Signal

  datatype SessionError =
    | AlreadyClosed | IngressExists | EgressExists | NoSignalChannel
    | MessengerFailed | WaitingTimeout | EstablishFailed | DescriptionFailed

  /** How the wait for the messenger ends. */
  datatype Wait = Arrived | MessengerError | SessionDone | TimedOut

  type Sdp = string

  /** The checks CreateIngressEndpoint makes before it touches the engine. */
  function IngressRefusal(done: bool, hasIngress: bool): Option<SessionError> {
    if done then Some(AlreadyClosed)
    else if hasIngress then Some(IngressExists)
    else None
  }

  /** The checks CreateEgressEndpoint makes before it waits for the messenger. */
  function EgressRefusal(done: bool, hasEgress: bool, hasIngress: bool): Option<SessionError> {
    if done then Some(AlreadyClosed)
    else if hasEgress then Some(EgressExists)
    else if !hasIngress then Some(NoSignalChannel)
    else None
  }

  function WaitRefusal(wait: Wait): Option<SessionError> {
    match wait
    case Arrived => None
    case MessengerError => Some(MessengerFailed)
    case SessionDone => Some(AlreadyClosed)
    case TimedOut => Some(WaitingTimeout)
  }

  /** What a creation returns once its checks and waits are over. */
  function Described(established: bool, answer: Option<Sdp>): Result<Sdp, SessionError> {
    if !established then Err(EstablishFailed)
    else if answer.None? then Err(DescriptionFailed)
    else Ok(answer.value)
  }

  function IngressAnswer(done: bool, hasIngress: bool, established: bool, answer: Option<Sdp>): Result<Sdp, SessionError> {
    match IngressRefusal(done, hasIngress)
    case Some(e) => Err(e)
    case None => Described(established, answer)
  }

  function EgressAnswer(done: bool, hasEgress: bool, hasIngress: bool, wait: Wait, established: bool, answer: Option<Sdp>)
    : Result<Sdp, SessionError>
  {
    match EgressRefusal(done, hasEgress, hasIngress)
    case Some(e) => Err(e)
    case None =>
      match WaitRefusal(wait)
      case Some(e) => Err(e)
      case None => Described(established, answer)
  }

  class Session {
    const id: SessionId
    const user: UserId
    const kind: SessionType
    const signal: Signal
    var locked: bool        // another goroutine holds, or waits for, the write lock
    var stopped: bool       // the session context is done
    var ingress: Endpoint?
    var egress: Endpoint?

    constructor (id: SessionId, user: UserId, kind: SessionType)
      ensures this.id == id && this.user == user && this.kind == kind
      ensures !locked && !stopped && ingress == null && egress == null
      ensures fresh(signal) && !signal.messenger && !signal.received && signal.offerer == null
    {
      this.id, this.user, this.kind := id, user, kind;
      signal := new Signal();
      locked, stopped, ingress, egress := false, false, null, null;
    }

    /** `established` and `answer` are what the engine and ICE gathering deliver, null or None on failure. */
    method CreateIngressEndpoint(established: Endpoint?, answer: Option<Sdp>) returns (r: Result<Sdp, SessionError>)
      requires established != null ==> established.sessionId == id
      modifies this`ingress
      ensures r.Ok? <==> !stopped && old(ingress) == null && established != null && answer.Some?
      ensures r.Ok? ==> answer.Some? && r.value == answer.value
      ensures stopped ==> r == Err(AlreadyClosed)
      ensures !stopped && old(ingress) != null ==> r == Err(IngressExists)
      ensures !stopped && old(ingress) == null && established == null ==> r == Err(EstablishFailed)
      ensures !stopped && old(ingress) == null && established != null && answer.None? ==> r == Err(DescriptionFailed)
      ensures ingress == if !stopped && old(ingress) == null then established else old(ingress)
      ensures r == IngressAnswer(stopped, old(ingress) != null, established != null, answer)
    {
      if stopped {
        return Err(AlreadyClosed);
      }
      if ingress != null {
        return Err(IngressExists);
      }
      if established == null {
        return Err(EstablishFailed);
      }
      ingress := established;
      if answer.None? {
        return Err(DescriptionFailed);
      }
      r := Ok(answer.value);
    }

    /** The wait can only succeed once the messenger-ready channel is closed. */
    method WaitForSignalChannel(wait: Wait) returns (r: Option<SessionError>)
      requires wait.Arrived? ==> signal.received
      ensures r.None? <==> ingress != null && wait.Arrived?
      ensures r.None? ==> signal.received
      ensures ingress == null ==> r == Some(NoSignalChannel)
      ensures ingress != null && wait.MessengerError? ==> r == Some(MessengerFailed)
      ensures ingress != null && wait.SessionDone? ==> r == Some(AlreadyClosed)
      ensures ingress != null && wait.TimedOut? ==> r == Some(WaitingTimeout)
    {
      if ingress == null {
        return Some(NoSignalChannel);
      }
      match wait {
        case Arrived => r := None;
        case MessengerError => r := Some(MessengerFailed);
        case SessionDone => r := Some(AlreadyClosed);
        case TimedOut => r := Some(WaitingTimeout);
      }
    }

    method CreateEgressEndpoint(wait: Wait, established: Endpoint?, answer: Option<Sdp>) returns (r: Result<Sdp, SessionError>)
      requires wait.Arrived? ==> signal.received
      requires established != null ==> established.sessionId == id
      modifies this`egress, signal`offerer, signal`offerNumber
      ensures r.Ok? ==> answer.Some? && r.value == answer.value
      ensures stopped ==> r == Err(AlreadyClosed)
      ensures !stopped && old(egress) != null ==> r == Err(EgressExists)
      ensures !stopped && old(egress) == null && ingress == null ==> r == Err(NoSignalChannel)
      ensures !stopped && old(egress) == null && ingress != null ==>
        match wait
        case MessengerError => r == Err(MessengerFailed)
        case SessionDone => r == Err(AlreadyClosed)
        case TimedOut => r == Err(WaitingTimeout)
        case Arrived =>
          && signal.received && egress == established
          && (established == null ==> r == Err(EstablishFailed))
          && (established != null ==>
                && signal.offerer == established && signal.offerNumber == 0
                && (answer.None? ==> r == Err(DescriptionFailed)) && (answer.Some? ==> r.Ok?))
      ensures stopped || old(egress) != null || ingress == null || !wait.Arrived? || established == null ==>
        egress == old(egress) && signal.offerer == old(signal.offerer) && signal.offerNumber == old(signal.offerNumber)
      ensures r == EgressAnswer(stopped, old(egress) != null, ingress != null, wait, established != null, answer)
    {
      if stopped {
        return Err(AlreadyClosed);
      }
      if egress != null {
        return Err(EgressExists);
      }
      var refused := WaitForSignalChannel(wait);
      if refused.Some? {
        return Err(refused.value);
      }
      if established == null {
        return Err(EstablishFailed);
      }
      egress := established;
      signal.SetOfferer(egress);
      if answer.None? {
        return Err(DescriptionFailed);
      }
      r := Ok(answer.value);
    }

    /** Hands a track to the egress endpoint; `p` and `mid` are the peer connection's answer. */
    method AddTrack(track: Track, p: Placement, mid: string)
      requires egress != null ==> Possible(egress.senders, p)
      modifies if egress != null then {egress as object, egress.repo} else {}
      ensures egress != null ==> egress.Books() == AddedTo(old(egress.Books()), track.id, track.info, p, mid)
      ensures egress != null ==>
        forall i :: i in egress.repo.infos ==>
          fresh(egress.repo.infos[i]) || (i in old(egress.repo.infos) && egress.repo.infos[i] == old(egress.repo.infos)[i])
      ensures egress != null && !p.Refused? ==> track.id in Active(egress.senders)
      ensures egress != null ==> egress.initComplete == old(egress.initComplete)
    {
      if egress != null {
        ActiveAfter(egress.Books(), track.id, track.info, p, mid);
        egress.AddTrack(track.id, track.info, p, mid);
      }
    }

    /** Takes a track from the egress endpoint; `ok` is the peer connection's answer. */
    method RemoveTrack(track: Track, ok: bool)
      modifies if egress != null then {egress as object, egress.repo} else {}
      ensures egress != null ==> egress.Books() == RemovedFrom(old(egress.Books()), track.id, track.info.id, ok)
      ensures egress != null ==>
        forall i :: i in egress.repo.infos ==> i in old(egress.repo.infos) && egress.repo.infos[i] == old(egress.repo.infos)[i]
      ensures egress != null && ok && old(DistinctSenders(egress.senders)) ==> track.id !in Active(egress.senders)
      ensures egress != null ==> egress.initComplete == old(egress.initComplete)
    {
      if egress != null {
        ghost var before := egress.Books();
        egress.RemoveTrack(track.id, track.info.id, ok);
        if DistinctSenders(before.senders) {
          ActiveAfterRemoval(before, track.id, track.info.id, ok);
        }
      }
    }

    /** Whether a hub event may be handed to this session; a lock that is taken means no. */
    method InitComplete() returns (r: bool)
      ensures r ==> !locked && egress != null && egress.initComplete
      ensures !stopped ==> (r <==> !locked && egress != null && egress.initComplete)
    {
      if locked {
        return false;
      }
      if egress != null {
        r := egress.IsInitComplete(stopped);
      } else {
        r := false;
      }
    }
  }

  class SessionRepository {
    var sessions: map<SessionId, Session>

    ghost function Members(): map<SessionId, Member>
      reads this
    {
      map k | k in sessions :: Member(sessions[k].user, sessions[k].kind)
    }

    ghost predicate Valid()
      reads this
    {
      && (forall k :: k in sessions ==> sessions[k].id == k)
      && UniqueUsers(Members())
    }

    constructor ()
      ensures Valid() && sessions == map[]
    {
      sessions := map[];
    }

    /** `s` carries a freshly drawn id. */
    method New(s: Session) returns (ok: bool)
      requires Valid() && s.id !in sessions
      modifies this
      ensures Valid()
      ensures ok <==> !HasUser(old(Members()), s.user)
      ensures sessions == if ok then old(sessions)[s.id := s] else old(sessions)
      ensures ok ==> Members() == old(Members())[s.id := Member(s.user, s.kind)]
    {
      ghost var before := Members();
      var rest := sessions.Keys;
      while rest != {}
        invariant rest <= sessions.Keys && sessions == old(sessions)
        invariant forall k :: k in sessions && k !in rest ==> sessions[k].user != s.user
        decreases rest
      {
        var k :| k in rest;
        if sessions[k].user == s.user {
          assert before[k].user == s.user;
          return false;
        }
        rest := rest - {k};
      }
      sessions := sessions[s.id := s];
      assert Members() == before[s.id := Member(s.user, s.kind)];
      ok := true;
    }

    method FindByUserId(userId: UserId) returns (r: Session?)
      requires Valid()
      ensures r == null <==> !HasUser(Members(), userId)
      ensures r != null ==> r.user == userId && r.id in sessions && sessions[r.id] == r
      ensures r != null ==> ByUser(Members())[userId] == r.id
    {
      var rest := sessions.Keys;
      while rest != {}
        invariant rest <= sessions.Keys
        invariant forall k :: k in sessions && k !in rest ==> sessions[k].user != userId
        decreases rest
      {
        var k :| k in rest;
        if sessions[k].user == userId {
          assert Members()[k].user == userId;
          return sessions[k];
        }
        rest := rest - {k};
      }
      r := null;
    }

    method DeleteByUser(user: UserId) returns (ok: bool)
      requires Valid()
      modifies this
      ensures Valid()
      ensures ok <==> HasUser(old(Members()), user)
      ensures Members() == WithoutUser(old(Members()), user)
      ensures forall k :: k in sessions <==> k in old(sessions) && old(sessions)[k].user != user
      ensures forall k :: k in sessions ==> k in old(sessions) && sessions[k] == old(sessions)[k]
    {
      ghost var before := Members();
      var rest := sessions.Keys;
      while rest != {}
        invariant rest <= sessions.Keys && sessions == old(sessions)
        invariant forall k :: k in sessions && k !in rest ==> sessions[k].user != user
        decreases rest
      {
        var k :| k in rest;
        if sessions[k].user == user {
          assert before[k].user == user;
          sessions := sessions - {sessions[k].id};
          assert Members() == WithoutUser(before, user);
          assert forall j :: j in old(sessions) ==> before[j].user == old(sessions)[j].user;
          assert forall j :: j in sessions <==> j in WithoutUser(before, user);
          RemovalTakesOne(before, user);
          return true;
        }
        rest := rest - {k};
      }
      assert Members() == WithoutUser(before, user);
      ok := false;
    }

    method Len() returns (n: nat)
      ensures n == |Members()| == |sessions|
    {
      n := |sessions|;
      assert Members().Keys == sessions.Keys;
    }

    method LenUserSession() returns (count: nat)
      ensures count == |UserSessions(Members())|
      ensures count == |set k | k in sessions && sessions[k].kind == UserSession|
    {
      count := 0;
      var rest := sessions.Keys;
      ghost var seen: set<SessionId> := {};
      while rest != {}
        invariant rest <= sessions.Keys
        invariant seen == (set k | k in sessions && k !in rest && sessions[k].kind == UserSession)
        invariant count == |seen|
        decreases rest
      {
        var k :| k in rest;
        rest := rest - {k};
        if sessions[k].kind == UserSession {
          count := count + 1;
          seen := seen + {k};
        }
      }
      assert seen == (set k | k in sessions && sessions[k].kind == UserSession);
      assert seen == UserSessions(Members());
    }
  }
}
