/** Every interleaving of one session's endpoint creations, its data-channel callbacks and its stop.
    A creation holds the session lock from its first check to its return. Callbacks and the stop need no lock.
    An endpoint's callbacks can only start once it is established: before that the other side has no answer. */
module SessionRuns {
  import opened Wrappers
  import opened Sessions
  import opened Runs

  datatype Kind = Silent | Unidirectional | Bidirectional

  type EndpointId = nat

  /** Progress of the creation that holds the lock. */
  datatype Pc =
    | Free
    | IngressEstablishing(kind: Kind)
    | EgressWaiting(kind: Kind)
    | EgressEstablishing(kind: Kind)
    | EgressInstalling          // egress assigned, setOfferer still to come
    | Describing                // waiting for the local description

  datatype Side = FromIngress | FromEgress

  /** A running OnSenderChannel: messenger made, or past the check that the ready channel is still open. */
  datatype Call = Made(side: Side) | Closing(side: Side)

  datatype Created = Created(endpoint: EndpointId, kind: Kind)

  /** `ready` is the closed messenger-ready channel, `closes` counts close calls; the second one would panic. */
  datatype State = State(
    done: bool, pc: Pc, ingress: Option<Created>, egress: Option<Created>, offerer: Option<EndpointId>,
    messenger: bool, ready: bool, closes: nat, calls: map<nat, Call>)

  datatype Action =
    | Stop
    | CreateIngress(kind: Kind) | EstablishIngress(result: Option<EndpointId>)
    | CreateEgress(kind: Kind) | Awaited(wait: Wait) | EstablishEgress(result: Option<EndpointId>) | InstallOfferer
    | Described
    | Channel(c: nat, side: Side) | Check(c: nat) | Close(c: nat)

  ghost predicate Init(s: State) {
    s == State(false, Free, None, None, None, false, false, 0, map[])
  }

  ghost predicate Loud(e: Option<Created>) {
    e.Some? && !e.value.kind.Silent?
  }

  ghost predicate Enabled(s: State, a: Action) {
    match a
    case Stop => true
    case CreateIngress(_) => s.pc.Free?
    case EstablishIngress(_) => s.pc.IngressEstablishing?
    case CreateEgress(_) => s.pc.Free?
    case Awaited(wait) => s.pc.EgressWaiting? && (wait.Arrived? ==> s.ready) && (wait.SessionDone? ==> s.done)
    case EstablishEgress(_) => s.pc.EgressEstablishing?
    case InstallOfferer => s.pc.EgressInstalling?
    case Described => s.pc.Describing?
    case Channel(c, side) => c !in s.calls && Loud(if side.FromIngress? then s.ingress else s.egress)
    case Check(c) => c in s.calls && s.calls[c].Made?
    case Close(c) => c in s.calls && s.calls[c].Closing?
  }

  ghost function Do(s: State, a: Action): State
    requires Enabled(s, a)
  {
    match a
    case Stop => s.(done := true)
    case CreateIngress(kind) =>
      if IngressRefusal(s.done, s.ingress.Some?).Some? then s else s.(pc := IngressEstablishing(kind))
    case EstablishIngress(None) => s.(pc := Free)
    case EstablishIngress(Some(e)) => s.(ingress := Some(Created(e, s.pc.kind)), pc := Describing)
    case CreateEgress(kind) =>
      if EgressRefusal(s.done, s.egress.Some?, s.ingress.Some?).Some? then s else s.(pc := EgressWaiting(kind))
    case Awaited(wait) => s.(pc := if wait.Arrived? then EgressEstablishing(s.pc.kind) else Free)
    case EstablishEgress(None) => s.(pc := Free)
    case EstablishEgress(Some(e)) => s.(egress := Some(Created(e, s.pc.kind)), pc := EgressInstalling)
    case InstallOfferer => s.(offerer := if s.egress.Some? then Some(s.egress.value.endpoint) else None, pc := Describing)
    case Described => s.(pc := Free)
    case Channel(c, side) => s.(messenger := true, calls := s.calls[c := Made(side)])
    case Check(c) =>
      s.(calls := if s.ready then s.calls - {c} else s.calls[c := Closing(s.calls[c].side)])
    case Close(c) => s.(ready := true, closes := s.closes + 1, calls := s.calls - {c})
  }

  ghost function Next(s: State, a: Action): Option<State> {
    if Enabled(s, a) then Some(Do(s, a)) else None
  }

  ghost predicate IsRun(states: seq<State>, actions: seq<Action>) {
    IsPath(Next, states, actions) && Init(states[0])
  }

  // The invariant

  /** The offerer is the egress endpoint, but for the one step between the two assignments. */
  ghost predicate OffererMatches(s: State) {
    if s.pc.EgressInstalling? then s.egress.Some? && s.offerer.None?
    else s.offerer == if s.egress.Some? then Some(s.egress.value.endpoint) else None
  }

  ghost predicate Inv(s: State) {
    && OffererMatches(s)
    && (s.pc.IngressEstablishing? ==> s.ingress.None? && s.egress.None?)
    && (s.pc.EgressWaiting? ==> s.ingress.Some? && s.egress.None?)
    && (s.pc.EgressEstablishing? ==> s.ready && s.egress.None?)
    && (s.egress.Some? ==> s.ready)
    && (s.ready ==> s.messenger)
    && (s.messenger ==> Loud(s.ingress))
    && (forall c :: c in s.calls ==> s.messenger)
    && (forall c :: c in s.calls && s.calls[c].side.FromEgress? ==> s.egress.Some? && s.calls[c].Made?)
  }

  lemma StepKeepsInv(s: State, a: Action)
    requires Inv(s) && Enabled(s, a)
    ensures Inv(Do(s, a))
  {
  }

  lemma RunKeepsInv(states: seq<State>, actions: seq<Action>, i: nat)
    requires IsRun(states, actions) && i < |states|
    ensures Inv(states[i])
  {
    forall s, a | Inv(s) && Enabled(s, a) ensures Inv(Do(s, a)) {
      StepKeepsInv(s, a);
    }
    Keeps(Next, Inv, states, actions, 0, i);
  }

  // Main results

  lemma StepWritesOnce(s: State, a: Action)
    requires Inv(s) && Enabled(s, a)
    ensures var s' := Do(s, a);
      && (s.ingress.Some? ==> s'.ingress == s.ingress)
      && (s.egress.Some? ==> s'.egress == s.egress)
      && (s.offerer.Some? ==> s'.offerer == s.offerer)
  {
  }

  /** Ingress, egress and offerer are write-once. */
  lemma {:induction false} WriteOnce(states: seq<State>, actions: seq<Action>, i: nat, j: nat)
    requires IsRun(states, actions) && i <= j < |states|
    ensures states[i].ingress.Some? ==> states[j].ingress == states[i].ingress
    ensures states[i].egress.Some? ==> states[j].egress == states[i].egress
    ensures states[i].offerer.Some? ==> states[j].offerer == states[i].offerer
  {
    if i < j {
      WriteOnce(states, actions, i, j - 1);
      RunKeepsInv(states, actions, j - 1);
      assert Next(states[j-1], actions[j-1]) == Some(states[j]);
      StepWritesOnce(states[j-1], actions[j-1]);
    }
  }

  /** Whenever the lock is free, however the last creation ended, an egress endpoint comes with an ingress endpoint,
      a messenger, a closed ready channel and itself as offerer; and there is no offerer without it. */
  lemma EgressIsWired(states: seq<State>, actions: seq<Action>, i: nat)
    requires IsRun(states, actions) && i < |states| && states[i].pc.Free?
    ensures var s := states[i];
      && (s.egress.Some? ==> s.ingress.Some? && s.messenger && s.ready && s.offerer == Some(s.egress.value.endpoint))
      && (s.egress.None? ==> s.offerer.None?)
  {
    RunKeepsInv(states, actions, i);
  }

  /** An egress endpoint needs an ingress endpoint that was created with a channel that is not silent. */
  lemma EgressNeedsLoudIngress(states: seq<State>, actions: seq<Action>, i: nat)
    requires IsRun(states, actions) && i < |states| && states[i].egress.Some?
    ensures exists j :: 0 <= j < i && actions[j].CreateIngress? && !actions[j].kind.Silent?
  {
    RunKeepsInv(states, actions, i);
    LoudIngressWasAskedFor(states, actions, i);
  }

  ghost predicate LoudIngress(s: State) {
    Loud(s.ingress) || (s.pc.IngressEstablishing? && !s.pc.kind.Silent?)
  }

  lemma OnlyCreateMakesLoud(s: State, a: Action)
    requires Enabled(s, a) && LoudIngress(Do(s, a))
    ensures LoudIngress(s) || (a.CreateIngress? && !a.kind.Silent?)
  {
  }

  lemma {:induction false} LoudIngressWasAskedFor(states: seq<State>, actions: seq<Action>, i: nat)
    requires IsRun(states, actions) && i < |states| && LoudIngress(states[i])
    ensures exists j :: 0 <= j < i && actions[j].CreateIngress? && !actions[j].kind.Silent?
  {
    assert i > 0 && Next(states[i-1], actions[i-1]) == Some(states[i]);
    OnlyCreateMakesLoud(states[i-1], actions[i-1]);
    if !(actions[i-1].CreateIngress? && !actions[i-1].kind.Silent?) {
      LoudIngressWasAskedFor(states, actions, i - 1);
    }
  }

  /** Left alone, the steps of an egress creation amount to the one call they split. */
  lemma EgressStepsCompose(states: seq<State>, actions: seq<Action>, i: nat, kind: Kind, e: EndpointId)
    requires IsRun(states, actions) && i < |states| && states[i].pc.Free? && states[i].ready
    ensures var s, s1 := states[i], Do(states[i], CreateEgress(kind));
      if EgressRefusal(s.done, s.egress.Some?, s.ingress.Some?).Some? then s1 == s
      else
        && Enabled(s1, Awaited(Arrived)) && Enabled(Do(s1, Awaited(Arrived)), EstablishEgress(Some(e)))
        && var s3 := Do(Do(s1, Awaited(Arrived)), EstablishEgress(Some(e)));
        && Enabled(s3, InstallOfferer)
        && Do(Do(s3, InstallOfferer), Described) == s.(egress := Some(Created(e, kind)), offerer := Some(e))
  {
    RunKeepsInv(states, actions, i);
  }

  // After the session is done

  /** A creation past its checks that can still assign: one that waits for a messenger only if one can come. */
  ghost predicate InFlight(s: State) {
    s.pc.IngressEstablishing? || s.pc.EgressEstablishing? || s.pc.EgressInstalling?
    || (s.pc.EgressWaiting? && Loud(s.ingress))
  }

  ghost predicate SameEndpoints(s: State, s': State) {
    s.ingress == s'.ingress && s.egress == s'.egress && s.offerer == s'.offerer
  }

  /** Done, with the endpoints of `s0` and no creation that could change them. */
  ghost predicate Frozen(s0: State, s: State) {
    Inv(s) && s.done && !InFlight(s) && SameEndpoints(s0, s)
  }

  lemma StepKeepsFrozen(s0: State, s: State, a: Action)
    requires Frozen(s0, s) && Enabled(s, a)
    ensures Frozen(s0, Do(s, a))
  {
    StepKeepsInv(s, a);
  }

  lemma PathKeepsFrozen(states: seq<State>, actions: seq<Action>, i: nat)
    requires IsPath(Next, states, actions) && i < |states| && Frozen(states[0], states[0])
    ensures Frozen(states[0], states[i])
  {
    var s0 := states[0];
    forall s, a | Frozen(s0, s) && Enabled(s, a) ensures Frozen(s0, Do(s, a)) {
      StepKeepsFrozen(s0, s, a);
    }
    Keeps(Next, s => Frozen(s0, s), states, actions, 0, i);
  }

  /** The steps that let the creation in flight assign an endpoint. */
  lemma InFlightAssigns(s: State) returns (states: seq<State>, actions: seq<Action>)
    requires Inv(s) && InFlight(s)
    ensures IsPath(Next, states, actions) && states[0] == s && !SameEndpoints(s, states[|actions|])
  {
    if s.pc.EgressWaiting? {
      states, actions := MessengerArrives(s);
      states, actions := Extend(Next, states, actions, Awaited(Arrived));
      states, actions := Extend(Next, states, actions, EstablishEgress(Some(0)));
    } else {
      var a := if s.pc.IngressEstablishing? then EstablishIngress(Some(0))
               else if s.pc.EgressEstablishing? then EstablishEgress(Some(0)) else InstallOfferer;
      states, actions := Extend(Next, [s], [], a);
    }
  }

  lemma MessengerArrives(s: State) returns (states: seq<State>, actions: seq<Action>)
    requires Inv(s) && s.pc.EgressWaiting? && Loud(s.ingress)
    ensures IsPath(Next, states, actions) && states[0] == s
    ensures var s' := states[|actions|]; s'.ready && s'.pc == s.pc && SameEndpoints(s, s')
  {
    states, actions := [s], [];
    if !s.ready {
      var c := Unused(s.calls.Keys);
      states, actions := Extend(Next, states, actions, Channel(c, FromIngress));
      states, actions := Extend(Next, states, actions, Check(c));
      states, actions := Extend(Next, states, actions, Close(c));
    }
  }

  lemma {:induction false} Unused(used: set<nat>) returns (c: nat)
    ensures c !in used && forall u :: u in used ==> u < c
  {
    if used == {} {
      c := 0;
    } else {
      var top :| top in used;
      var other := Unused(used - {top});
      c := if top < other then other else top + 1;
      forall u | u in used ensures u < c {
        assert u == top || u in used - {top};
      }
    }
  }

  /** Nothing is created after the session is done, exactly when no creation was in flight by then. */
  lemma FrozenIff(states: seq<State>, actions: seq<Action>, i: nat)
    requires IsRun(states, actions) && i < |states| && states[i].done
    ensures !InFlight(states[i]) <==>
      forall states': seq<State>, actions': seq<Action> ::
        IsPath(Next, states', actions') && states'[0] == states[i] ==> SameEndpoints(states[i], states'[|actions'|])
  {
    RunKeepsInv(states, actions, i);
    if InFlight(states[i]) {
      var states', actions' := InFlightAssigns(states[i]);
    } else {
      forall states': seq<State>, actions': seq<Action> | IsPath(Next, states', actions') && states'[0] == states[i]
        ensures SameEndpoints(states[i], states'[|actions'|])
      {
        PathKeepsFrozen(states', actions', |actions'|);
      }
    }
  }

  /** It does happen: a creation that passed its checks assigns its endpoint after the stop. */
  lemma CreatedAfterDoneHappens(e: EndpointId)
    ensures exists states: seq<State>, actions: seq<Action>, i: nat ::
      && IsRun(states, actions) && i < |actions| && states[i].done && actions[i] == EstablishIngress(Some(e))
      && states[i].ingress.None? && states[i+1].ingress == Some(Created(e, Silent))
  {
    var states, actions := [State(false, Free, None, None, None, false, false, 0, map[])], [];
    states, actions := Extend(Next, states, actions, CreateIngress(Silent));
    states, actions := Extend(Next, states, actions, Stop);
    states, actions := Extend(Next, states, actions, EstablishIngress(Some(e)));
    assert IsRun(states, actions) && actions[2] == EstablishIngress(Some(e)) && states[3] == Do(states[2], actions[2]);
  }

  // Closing the ready channel

  /** The callbacks past their check, each bound to close the channel. */
  ghost function ClosingIn(calls: map<nat, Call>): set<nat> {
    set c | c in calls && calls[c].Closing?
  }

  ghost function ClosingCalls(s: State): set<nat> {
    ClosingIn(s.calls)
  }

  /** Close calls made or bound to be made. */
  ghost function Committed(s: State): nat {
    s.closes + |ClosingCalls(s)|
  }

  /** What a step does to the callbacks. */
  ghost function CallsAfter(calls: map<nat, Call>, ready: bool, a: Action): map<nat, Call> {
    match a
    case Channel(c, side) => calls[c := Made(side)]
    case Check(c) => if ready || c !in calls then calls - {c} else calls[c := Closing(calls[c].side)]
    case Close(c) => calls - {c}
    case _ => calls
  }

  lemma StepCalls(s: State, a: Action)
    requires Enabled(s, a)
    ensures var s' := Do(s, a);
      && s'.calls == CallsAfter(s.calls, s.ready, a)
      && s'.closes == s.closes + (if a.Close? then 1 else 0) && s'.ready == (s.ready || a.Close?)
    ensures match a
      case Channel(c, _) => c !in s.calls
      case Check(c) => c in s.calls && s.calls[c].Made?
      case Close(c) => c in s.calls && s.calls[c].Closing?
      case _ => true
  {
  }

  lemma CallStarts(calls: map<nat, Call>, c: nat, side: Side)
    requires c !in calls
    ensures ClosingIn(calls[c := Made(side)]) == ClosingIn(calls)
  {
  }

  lemma CallPassesCheck(calls: map<nat, Call>, c: nat, side: Side)
    requires c in calls && calls[c].Made?
    ensures |ClosingIn(calls[c := Closing(side)])| == |ClosingIn(calls)| + 1
  {
    assert ClosingIn(calls[c := Closing(side)]) == ClosingIn(calls) + {c};
  }

  lemma CallEnds(calls: map<nat, Call>, c: nat)
    requires c in calls
    ensures |ClosingIn(calls - {c})| == |ClosingIn(calls)| - if calls[c].Closing? then 1 else 0
  {
    assert ClosingIn(calls - {c}) == ClosingIn(calls) - {c};
  }

  lemma ClosingAfter(s: State, a: Action)
    requires Enabled(s, a)
    ensures |ClosingCalls(Do(s, a))| ==
      |ClosingCalls(s)| + if a.Check? && !s.ready then 1 else if a.Close? then -1 else 0
  {
    StepCalls(s, a);
    match a {
      case Channel(c, side) => CallStarts(s.calls, c, side);
      case Check(c) =>
        if s.ready {
          CallEnds(s.calls, c);
        } else {
          CallPassesCheck(s.calls, c, s.calls[c].side);
        }
      case Close(c) => CallEnds(s.calls, c);
      case _ =>
    }
  }

  /** The first close makes the channel ready, and with one callback at most past its check it is the last. */
  ghost predicate ClosesOnce(s: State) {
    && s.closes == (if s.ready then 1 else 0)
    && |ClosingCalls(s)| <= (if s.ready then 0 else 1)
  }

  /** The messenger-ready channel is closed at most once, calls still to come included, exactly when at no time two
      callbacks are past their check together; whatever the channel kinds of the two endpoints. */
  lemma {:induction false} ClosedOnceIff(states: seq<State>, actions: seq<Action>, n: nat)
    requires IsRun(states, actions) && n < |states|
    ensures Committed(states[n]) <= 1 <==> forall i :: 0 <= i <= n ==> |ClosingCalls(states[i])| <= 1
    ensures Committed(states[n]) <= 1 ==> ClosesOnce(states[n])
  {
    if n == 0 {
      assert ClosingCalls(states[0]) == {};
    } else {
      ClosedOnceIff(states, actions, n - 1);
      assert Next(states[n-1], actions[n-1]) == Some(states[n]);
      ClosingAfter(states[n-1], actions[n-1]);
      StepCalls(states[n-1], actions[n-1]);
    }
  }

  ghost predicate NoIngressCall(calls: map<nat, Call>) {
    forall c :: c in calls ==> calls[c].side.FromEgress?
  }

  /** The ingress endpoint hands over one data channel at a time; the egress endpoint need not. */
  ghost predicate OneAtATime(states: seq<State>, actions: seq<Action>)
    requires IsRun(states, actions)
  {
    forall i :: 0 <= i < |actions| && actions[i].Channel? && actions[i].side.FromIngress? ==>
      NoIngressCall(states[i].calls)
  }

  ghost predicate OneIngressCall(calls: map<nat, Call>) {
    forall c, d :: c in calls && d in calls && calls[c].side.FromIngress? && calls[d].side.FromIngress? ==> c == d
  }

  lemma StaysOneIngressCall(calls: map<nat, Call>, ready: bool, a: Action)
    requires OneIngressCall(calls)
    requires a.Channel? ==> a.c !in calls && (a.side.FromIngress? ==> NoIngressCall(calls))
    ensures OneIngressCall(CallsAfter(calls, ready, a))
  {
    assert forall c :: c in CallsAfter(calls, ready, a) && !(a.Channel? && a.c == c) ==>
      c in calls && CallsAfter(calls, ready, a)[c].side == calls[c].side;
  }

  lemma StepKeepsApart(s: State, a: Action)
    requires Enabled(s, a) && OneIngressCall(s.calls)
    requires a.Channel? && a.side.FromIngress? ==> NoIngressCall(s.calls)
    ensures OneIngressCall(Do(s, a).calls)
  {
    StepCalls(s, a);
    StaysOneIngressCall(s.calls, s.ready, a);
  }

  lemma {:induction false} IngressCallsApart(states: seq<State>, actions: seq<Action>, i: nat)
    requires IsRun(states, actions) && i < |states| && OneAtATime(states, actions)
    ensures OneIngressCall(states[i].calls)
  {
    if i > 0 {
      IngressCallsApart(states, actions, i - 1);
      assert Next(states[i-1], actions[i-1]) == Some(states[i]);
      StepKeepsApart(states[i-1], actions[i-1]);
    }
  }

  lemma AtMostOne(s: set<nat>)
    requires forall c, d :: c in s && d in s ==> c == d
    ensures |s| <= 1
  {
    if s != {} {
      var c :| c in s;
      assert s == {c};
    }
  }

  /** Callbacks of the egress endpoint always find the channel closed, so one ingress callback at a time is enough. */
  lemma ClosedAtMostOnce(states: seq<State>, actions: seq<Action>, n: nat)
    requires IsRun(states, actions) && n < |states| && OneAtATime(states, actions)
    ensures states[n].closes == if states[n].ready then 1 else 0
  {
    forall i | 0 <= i <= n ensures |ClosingCalls(states[i])| <= 1 {
      RunKeepsInv(states, actions, i);
      IngressCallsApart(states, actions, i);
      AtMostOne(ClosingCalls(states[i]));
    }
    ClosedOnceIff(states, actions, n);
  }

  ghost function LoudIngressOnly(calls: map<nat, Call>): State {
    State(false, Describing, Some(Created(0, Unidirectional)), None, None, calls != map[], false, 0, calls)
  }

  lemma LoudIngressRun() returns (states: seq<State>, actions: seq<Action>)
    ensures IsRun(states, actions) && states[|actions|] == LoudIngressOnly(map[])
  {
    states, actions := [State(false, Free, None, None, None, false, false, 0, map[])], [];
    states, actions := Extend(Next, states, actions, CreateIngress(Unidirectional));
    states, actions := Extend(Next, states, actions, EstablishIngress(Some(0)));
  }

  lemma TwoPastTheirCheck() returns (states: seq<State>, actions: seq<Action>)
    ensures IsRun(states, actions)
    ensures states[|actions|] == LoudIngressOnly(map[0 := Closing(FromIngress), 1 := Closing(FromIngress)])
  {
    states, actions := LoudIngressRun();
    states, actions := Extend(Next, states, actions, Channel(0, FromIngress));
    assert states[|actions|] == LoudIngressOnly(map[0 := Made(FromIngress)]);
    states, actions := Extend(Next, states, actions, Check(0));
    assert states[|actions|] == LoudIngressOnly(map[0 := Closing(FromIngress)]);
    states, actions := Extend(Next, states, actions, Channel(1, FromIngress));
    states, actions := Extend(Next, states, actions, Check(1));
  }

  /** Two data channels of the ingress endpoint handed over at once can close it twice. */
  lemma DoubleCloseHappens()
    ensures exists states: seq<State>, actions: seq<Action> :: IsRun(states, actions) && states[|actions|].closes == 2
  {
    var states, actions := TwoPastTheirCheck();
    states, actions := Extend(Next, states, actions, Close(0));
    states, actions := Extend(Next, states, actions, Close(1));
  }
}
