/** One-shot commands (internal/lobby/commands/command.go, create_ingress.go, create_egress.go). */
module Commands {
  import opened Wrappers
  import opened Endpoint
  import opened Sessions

  datatype CommandError = SessionFailed(error: SessionError) | NoSession | LobbyClosed

  datatype Resource = Resource(id: SessionId, sdp: Sdp)

  /** `errors` is the chain an error wraps, oldest first; `closes` counts close calls on the done channel. */
  datatype Command = Command(errors: seq<CommandError>, response: Option<Resource>, done: bool, closes: nat)

  const NewCommand := Command([], None, false, 0)

  function Finished(c: Command): Command {
    if c.done then c else c.(done := true, closes := c.closes + 1)
  }

  function Failed(c: Command, error: CommandError): Command {
    if c.done then c else Finished(c.(errors := c.errors + [error]))
  }

  /** Execute, given what the session answered. The response is written even when the command is done. */
  function Executed(c: Command, result: Result<Resource, SessionError>): Command {
    match result
    case Ok(resource) => Finished(c.(response := Some(resource)))
    case Err(error) => Failed(c, SessionFailed(error))
  }

  // What may be called on a command

  datatype Call = SetError(error: CommandError) | SetDone | Execute(result: Result<Resource, SessionError>)

  function Called(c: Command, call: Call): Command {
    match call
    case SetError(error) => Failed(c, error)
    case SetDone => Finished(c)
    case Execute(result) => Executed(c, result)
  }

  function CalledAll(c: Command, calls: seq<Call>): Command {
    if calls == [] then c else Called(CalledAll(c, calls[..|calls|-1]), calls[|calls|-1])
  }

  lemma {:induction false} CalledAllConcat(c: Command, first: seq<Call>, second: seq<Call>)
    ensures CalledAll(c, first + second) == CalledAll(CalledAll(c, first), second)
  {
    if second == [] {
      assert first + second == first;
    } else {
      var shorter := second[..|second|-1];
      assert (first + second)[..|first + second|-1] == first + shorter;
      CalledAllConcat(c, first, shorter);
    }
  }

  /** How a lobby ends a command: refused, without a session, or run on one. */
  datatype Ending = Refused | Homeless | Ran(result: Result<Resource, SessionError>)

  /** The calls a lobby makes; after Execute the no-session error follows unconditionally. */
  function Submission(e: Ending): seq<Call> {
    match e
    case Refused => [SetError(LobbyClosed)]
    case Homeless => [SetError(NoSession)]
    case Ran(result) => [Execute(result), SetError(NoSession)]
  }

  function Complete(e: Ending): Command {
    match e
    case Refused => Command([LobbyClosed], None, true, 1)
    case Homeless => Command([NoSession], None, true, 1)
    case Ran(Ok(resource)) => Command([], Some(resource), true, 1)
    case Ran(Err(error)) => Command([SessionFailed(error)], None, true, 1)
  }

  ghost predicate ExactlyOne(c: Command) {
    (c.response.Some? && c.errors == []) || (c.response.None? && |c.errors| == 1)
  }

  /** The commands complete once: submitted once and never executed again, a command holds exactly one of response
      and error, has closed its done channel once, and no number of later errors or completions changes it. */
  lemma {:induction false} CompletesOnce(e: Ending, later: seq<Call>)
    requires forall k :: 0 <= k < |later| ==> !later[k].Execute?
    ensures CalledAll(NewCommand, Submission(e) + later) == Complete(e)
    ensures ExactlyOne(Complete(e)) && Complete(e).closes == 1
  {
    CalledAllConcat(NewCommand, Submission(e), later);
    if later == [] {
      if e.Ran? {
        var calls := Submission(e);
        assert calls[..1] == [Execute(e.result)];
        assert CalledAll(NewCommand, calls[..1]) == Executed(NewCommand, e.result);
      }
    } else {
      CompletesOnce(e, later[..|later|-1]);
      CalledAllConcat(NewCommand, Submission(e), later[..|later|-1]);
    }
  }

  lemma {:induction false} DoneIsFinal(c: Command, calls: seq<Call>)
    requires c.done && forall k :: 0 <= k < |calls| && calls[k].Execute? ==> calls[k].result.Err?
    ensures CalledAll(c, calls) == c
  {
    if calls != [] {
      DoneIsFinal(c, calls[..|calls|-1]);
    }
  }

  /** A command object submitted a second time changes exactly when that run succeeds with another response, and
      loses the one-of-two shape exactly when the first submission failed and the second succeeds. */
  lemma ResubmittedIff(first: Ending, second: Ending)
    ensures var c := CalledAll(NewCommand, Submission(first) + Submission(second));
      && c.done && c.closes == 1
      && (c == Complete(first) <==>
            (second.Ran? && second.result.Ok? ==> first == Ran(second.result)))
      && (ExactlyOne(c) <==>
            (second.Ran? && second.result.Ok? ==> first.Ran? && first.result.Ok?))
  {
    CompletesOnce(first, []);
    assert Submission(first) + [] == Submission(first);
    CalledAllConcat(NewCommand, Submission(first), Submission(second));
    var c, calls := Complete(first), Submission(second);
    if second.Ran? && second.result.Ok? {
      assert calls[..1] == [Execute(second.result)];
      assert CalledAll(c, calls[..1]) == Executed(c, second.result);
    } else {
      DoneIsFinal(c, calls);
    }
  }

  // The command objects

  datatype Creates = CreatesIngress | CreatesEgress

  /** What the engine and the messenger do while a command runs. */
  datatype Outside = Outside(wait: Wait, established: Endpoint?, answer: Option<Sdp>)

  /** What a session with the given state answers to a command. */
  function Outcome(creates: Creates, id: SessionId, done: bool, hasIngress: bool, hasEgress: bool, outside: Outside)
    : Result<Resource, SessionError>
  {
    var r := if creates.CreatesIngress?
             then IngressAnswer(done, hasIngress, outside.established != null, outside.answer)
             else EgressAnswer(done, hasEgress, hasIngress, outside.wait, outside.established != null, outside.answer);
    if r.Ok? then Ok(Resource(id, r.value)) else Err(r.error)
  }

  class CreateCommand {
    const user: UserId
    const creates: Creates
    var errors: seq<CommandError>
    var response: Option<Resource>
    var done: bool
    ghost var closes: nat

    ghost function Value(): Command
      reads this
    {
      Command(errors, response, done, closes)
    }

    constructor (user: UserId, creates: Creates)
      ensures this.user == user && this.creates == creates && Value() == NewCommand
    {
      this.user, this.creates := user, creates;
      errors, response, done, closes := [], None, false, 0;
    }

    method SetError(error: CommandError)
      modifies this
      ensures Value() == Failed(old(Value()), error)
      ensures done && response == old(response) && closes == old(closes) + (if old(done) then 0 else 1)
      ensures errors == if old(done) then old(errors) else old(errors) + [error]
    {
      if !done {
        errors := errors + [error];
        SetDone();
      }
    }

    method SetDone()
      modifies this
      ensures Value() == Finished(old(Value()))
      ensures done && response == old(response) && errors == old(errors)
      ensures closes == old(closes) + if old(done) then 0 else 1
    {
      if !done {
        done := true;
        closes := closes + 1;
      }
    }

    /** `result` is what the session answered; a command creates the one endpoint it is for and no other. */
    method ExecuteOn(session: Session, outside: Outside) returns (ghost result: Result<Resource, SessionError>)
      requires outside.wait.Arrived? ==> session.signal.received
      requires outside.established != null ==> outside.established.sessionId == session.id
      modifies this, session`ingress, session`egress, session.signal`offerer, session.signal`offerNumber
      ensures Value() == Executed(old(Value()), result)
      ensures result.Ok? ==> outside.answer.Some? && result.value == Resource(session.id, outside.answer.value)
      ensures result.Ok? ==> response == Some(result.value) && errors == old(errors) && done
      ensures result.Err? ==> response == old(response) && done
      ensures result.Err? && !old(done) ==> errors == old(errors) + [SessionFailed(result.error)]
      ensures creates.CreatesIngress? ==>
        match IngressAnswer(session.stopped, old(session.ingress) != null, outside.established != null, outside.answer)
        case Ok(_) => result.Ok?
        case Err(e) => result == Err(e)
      ensures creates.CreatesEgress? ==>
        match EgressAnswer(session.stopped, old(session.egress) != null, session.ingress != null, outside.wait,
                           outside.established != null, outside.answer)
        case Ok(_) => result.Ok?
        case Err(e) => result == Err(e)
      ensures result == Outcome(creates, session.id, session.stopped, old(session.ingress) != null, old(session.egress) != null, outside)
      ensures session.ingress ==
        if creates.CreatesIngress? && !session.stopped && old(session.ingress) == null then outside.established else old(session.ingress)
      ensures session.egress ==
        if creates.CreatesEgress? && !session.stopped && old(session.egress) == null && session.ingress != null && outside.wait.Arrived?
        then outside.established else old(session.egress)
      ensures session.signal.offerer == if session.egress == old(session.egress) then old(session.signal.offerer) else session.egress
      ensures result.Ok? ==> outside.established == if creates.CreatesIngress? then session.ingress else session.egress
    {
      var r: Result<Sdp, SessionError>;
      match creates {
        case CreatesIngress => r := session.CreateIngressEndpoint(outside.established, outside.answer);
        case CreatesEgress => r := session.CreateEgressEndpoint(outside.wait, outside.established, outside.answer);
      }
      if r.Err? {
        SetError(SessionFailed(r.error));
        return Err(r.error);
      }
      response := Some(Resource(session.id, r.value));
      SetDone();
      result := Ok(response.value);
    }
  }
}
