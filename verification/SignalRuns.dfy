/** Numbered renegotiation offers and their answers, over every run. The data channel loses, repeats and reorders
    messages, so an answer to any offer sent so far may arrive at any time, any number of times. It hands over one
    message at a time: the number is compared first and the answer is applied later, while offers go on. */
module SignalRuns {
  import opened Wrappers
  import opened Signal
  import opened Runs

  /** setOfferer stores the endpoint and then resets the counter; offers may fall before, between and after. */
  datatype Stage = NoOfferer | Installed | Counting

  /** An answer to the offer at index `offer`, let through when `newest` was the index of the latest offer. */
  datatype Entry = Entry(offer: nat, newest: nat)

  /** `sent` are the wire numbers of all offers in order, `early` counts those issued before the counter was reset,
      `held` is an answer let through and not yet applied, `log` are the applied ones. */
  datatype State = State(stage: Stage, counter: Uint32, sent: seq<Uint32>, early: nat, held: Option<Entry>, log: seq<Entry>)

  datatype Action = Install | Reset | Offer | Receive(offer: nat) | Apply

  ghost predicate Init(s: State) {
    s == State(NoOfferer, 0, [], 0, None, [])
  }

  ghost predicate Enabled(s: State, a: Action) {
    match a
    case Install => s.stage.NoOfferer?
    case Reset => s.stage.Installed?
    case Offer => true
    case Receive(i) => i < |s.sent| && s.held.None?
    case Apply => s.held.Some?
  }

  /** OnAnswer lets an answer to offer `i` through. */
  ghost predicate Accepted(s: State, i: nat)
    requires i < |s.sent|
  {
    !s.stage.NoOfferer? && s.sent[i] == s.counter
  }

  ghost function Do(s: State, a: Action): State
    requires Enabled(s, a)
  {
    match a
    case Install => s.(stage := Installed)
    case Reset => s.(stage := Counting, counter := 0)
    case Offer =>
      var n := NextNumber(s.counter);
      s.(counter := n, sent := s.sent + [n], early := if s.stage.Counting? then s.early else s.early + 1)
    case Receive(i) => if Accepted(s, i) then s.(held := Some(Entry(i, |s.sent| - 1))) else s
    case Apply => s.(held := None, log := s.log + [s.held.value])
  }

  ghost function Next(s: State, a: Action): Option<State> {
    if Enabled(s, a) then Some(Do(s, a)) else None
  }

  ghost predicate IsRun(states: seq<State>, actions: seq<Action>) {
    IsPath(Next, states, actions) && Init(states[0])
  }

  // The invariant

  /** Offers issued since the counter last stood at zero. */
  ghost function Since(s: State): nat
    requires s.early <= |s.sent|
  {
    if s.stage.Counting? then |s.sent| - s.early else |s.sent|
  }

  ghost predicate Numbered(s: State) {
    && s.early <= |s.sent|
    && (!s.stage.Counting? ==> s.early == |s.sent|)
    && s.counter == Since(s) % UINT32
    && forall i :: 0 <= i < |s.sent| ==> s.sent[i] == (if i < s.early then i + 1 else i + 1 - s.early) % UINT32
  }

  ghost predicate Echoes(e: Entry, count: nat) {
    e.offer <= e.newest < count && (e.newest - e.offer) % UINT32 == 0
  }

  ghost predicate Logged(s: State) {
    && (forall k :: 0 <= k < |s.log| ==> Echoes(s.log[k], |s.sent|))
    && (forall j, k :: 0 <= j <= k < |s.log| ==> s.log[j].newest <= s.log[k].newest)
    && (s.held.Some? ==> Echoes(s.held.value, |s.sent|) && forall k :: 0 <= k < |s.log| ==> s.log[k].newest <= s.held.value.newest)
  }

  ghost predicate Inv(s: State) {
    Numbered(s) && (s.early == 0 ==> Logged(s))
  }

  /** Numbers `a` and `b` apart by a multiple of the counter's period read alike on the wire. */
  lemma Congruent(a: nat, b: nat)
    requires a <= b
    ensures a % UINT32 == b % UINT32 <==> (b - a) % UINT32 == 0
  {
    assert a == UINT32 * (a / UINT32) + a % UINT32 && b == UINT32 * (b / UINT32) + b % UINT32;
  }

  lemma ReceiveKeepsLogged(s: State, i: nat)
    requires Inv(s) && Enabled(s, Receive(i)) && Accepted(s, i) && s.early == 0
    ensures Logged(Do(s, Receive(i)))
  {
    Congruent(i + 1, |s.sent|);
  }

  lemma OfferKeepsLogged(s: State)
    requires Logged(s)
    ensures Logged(Do(s, Offer))
  {
    assert forall e: Entry :: Echoes(e, |s.sent|) ==> Echoes(e, |s.sent| + 1);
  }

  lemma NextCounts(n: nat)
    ensures NextNumber(n % UINT32) == (n + 1) % UINT32
  {
  }

  lemma OfferKeepsNumbers(s: State)
    requires Numbered(s)
    ensures Numbered(Do(s, Offer))
  {
    NextCounts(Since(s));
    assert Do(s, Offer).sent[|s.sent|] == NextNumber(s.counter);
  }

  lemma StepKeepsNumbers(s: State, a: Action)
    requires Numbered(s) && Enabled(s, a)
    ensures Numbered(Do(s, a))
  {
    if a.Offer? {
      OfferKeepsNumbers(s);
    }
  }

  lemma StepKeepsInv(s: State, a: Action)
    requires Inv(s) && Enabled(s, a)
    ensures Inv(Do(s, a))
  {
    StepKeepsNumbers(s, a);
    if s.early == 0 && a.Offer? {
      OfferKeepsLogged(s);
    } else if s.early == 0 && a.Receive? && Accepted(s, a.offer) {
      ReceiveKeepsLogged(s, a.offer);
    }
  }

  lemma RunKeepsInv(states: seq<State>, actions: seq<Action>, i: nat)
    requires IsRun(states, actions) && i < |states|
    ensures Inv(states[i])
  {
    forall s, a | Inv(s) && Enabled(s, a) ensures Inv(Do(s, a)) {
      StepKeepsInv(s, a);
    }
    Keeps(Next, Inv, states, actions, 0, i);
  }

  // Which answers are let through

  /** Once the counter is reset, an answer passes exactly when its offer's number and the latest one agree modulo 2^32. */
  lemma AcceptedIff(states: seq<State>, actions: seq<Action>, n: nat, i: nat)
    requires IsRun(states, actions) && n < |states| && states[n].stage.Counting? && i < |states[n].sent|
    ensures Numbered(states[n])
    ensures var s := states[n];
      Accepted(s, i) <==>
        if i >= s.early then (|s.sent| - 1 - i) % UINT32 == 0
        else Since(s) % UINT32 == (i + 1) % UINT32
  {
    RunKeepsInv(states, actions, n);
    var s := states[n];
    if i >= s.early {
      Congruent(i + 1 - s.early, |s.sent| - s.early);
    }
  }

  ghost predicate OnlyNewest(s: State) {
    forall i :: 0 <= i < |s.sent| && Accepted(s, i) ==> i >= s.early && i == |s.sent| - 1
  }

  /** Only the latest offer's answer passes exactly when at most 2^32 offers follow the reset and fewer offers came
      before it than after it (than 2^32, when none came after it). */
  lemma OnlyNewestIff(states: seq<State>, actions: seq<Action>, n: nat)
    requires IsRun(states, actions) && n < |states| && states[n].stage.Counting?
    ensures Numbered(states[n])
    ensures var s := states[n];
      OnlyNewest(s) <==> Since(s) <= UINT32 && s.early < if Since(s) == 0 then UINT32 else Since(s)
  {
    RunKeepsInv(states, actions, n);
    var s := states[n];
    var m := Since(s);
    if m > UINT32 {
      AcceptedIff(states, actions, n, |s.sent| - 1 - UINT32);
    } else {
      var stale := if m == 0 then UINT32 else m;
      if s.early >= stale {
        AcceptedIff(states, actions, n, stale - 1);
      } else {
        forall i | 0 <= i < |s.sent| && Accepted(s, i) ensures i >= s.early && i == |s.sent| - 1 {
          AcceptedIff(states, actions, n, i);
        }
      }
    }
  }

  /** The answer to the latest offer always passes. */
  lemma NewestPasses(states: seq<State>, actions: seq<Action>, n: nat)
    requires IsRun(states, actions) && n < |states| && states[n].stage.Counting? && states[n].early < |states[n].sent|
    ensures Accepted(states[n], |states[n].sent| - 1)
  {
    AcceptedIff(states, actions, n, |states[n].sent| - 1);
  }

  // Which answers are applied

  /** With no offer before the counter is reset, every applied answer belongs to the offer that was the latest one, or
      to one a multiple of 2^32 before it; up to 2^32 offers it is the latest, and applied offers never go back. */
  lemma AppliedAnswersNewest(states: seq<State>, actions: seq<Action>, n: nat)
    requires IsRun(states, actions) && n < |states| && states[n].early == 0
    ensures var s := states[n];
      && (forall k :: 0 <= k < |s.log| ==> Echoes(s.log[k], |s.sent|))
      && (|s.sent| <= UINT32 ==>
            && (forall k :: 0 <= k < |s.log| ==> s.log[k].offer == s.log[k].newest)
            && forall j, k :: 0 <= j <= k < |s.log| ==> s.log[j].offer <= s.log[k].offer)
  {
    RunKeepsInv(states, actions, n);
    var s := states[n];
    if |s.sent| <= UINT32 {
      forall k | 0 <= k < |s.log| ensures s.log[k].offer == s.log[k].newest {
        assert Echoes(s.log[k], |s.sent|);
      }
    }
  }

  // Both conditions are needed

  lemma Start() returns (states: seq<State>, actions: seq<Action>)
    ensures IsRun(states, actions) && Init(states[|actions|])
  {
    states, actions := [State(NoOfferer, 0, [], 0, None, [])], [];
  }

  /** One offer that overtakes setOfferer is enough: its answer is applied in place of the newer offer's. */
  lemma StaleAnswerApplied()
    ensures exists states: seq<State>, actions: seq<Action> ::
      IsRun(states, actions) && states[|actions|].early == 1 && states[|actions|].log == [Entry(0, 1)]
  {
    var states, actions := Start();
    states, actions := Extend(Next, states, actions, Offer);
    states, actions := Extend(Next, states, actions, Install);
    states, actions := Extend(Next, states, actions, Reset);
    states, actions := Extend(Next, states, actions, Offer);
    states, actions := Extend(Next, states, actions, Receive(0));
    states, actions := Extend(Next, states, actions, Apply);
  }

  lemma {:induction false} ManyOffers(count: nat) returns (states: seq<State>, actions: seq<Action>)
    ensures IsRun(states, actions)
    ensures var s := states[|actions|]; s.stage.Counting? && s.early == 0 && |s.sent| == count && s.held.None? && s.log == []
  {
    if count == 0 {
      states, actions := Start();
      states, actions := Extend(Next, states, actions, Install);
      states, actions := Extend(Next, states, actions, Reset);
    } else {
      states, actions := ManyOffers(count - 1);
      states, actions := Extend(Next, states, actions, Offer);
    }
  }

  /** One offer beyond 2^32 is enough too: the answer to the first one passes for the latest one's. */
  lemma WrapAroundHappens()
    ensures exists states: seq<State>, actions: seq<Action> ::
      && IsRun(states, actions) && states[|actions|].early == 0 && |states[|actions|].sent| == UINT32 + 1
      && states[|actions|].log == [Entry(0, UINT32)]
  {
    var states, actions := ManyOffers(UINT32 + 1);
    AcceptedIff(states, actions, |actions|, 0);
    states, actions := Extend(Next, states, actions, Receive(0));
    states, actions := Extend(Next, states, actions, Apply);
  }
}
