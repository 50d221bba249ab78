/** The hub and the catch-up goroutine on one egress endpoint, call by call. The hub adds and removes tracks one after
    the other, the catch-up only adds; between the steps of one call the other may move (internal/rtp/endpoint.go). */
module EndpointRuns {
  import opened Wrappers
  import opened TrackInfo
  import opened InfoRepository
  import opened Endpoint
  import opened Runs

  /** `Checked`: AddTrack found no sender. `Sent`: the peer connection placed the track, its record is still to come.
      `Found`: RemoveTrack found the sender. `Forgot`: the record is deleted, the sender still to be dropped. */
  datatype Call =
    | Quiet
    | Checked(t: TrackId, info: Info)
    | Sent(t: TrackId, info: Info)
    | Found(t: TrackId, id: InfoId, slot: nat)
    | Forgot(t: TrackId, slot: nat)

  datatype Who = TheHub | TheCatchUp

  /** `idOf` pairs every track with its record id; it never changes. */
  datatype State = State(books: Ledger, hub: Call, catchUp: Call, idOf: map<TrackId, InfoId>)

  datatype Action =
    | BeginAdd(who: Who, t: TrackId, info: Info) | Place(who: Who, p: Placement) | Record(who: Who, mid: string)
    | BeginRemove(t: TrackId, id: InfoId) | Forget | Drop(ok: bool)

  ghost function CallOf(s: State, who: Who): Call {
    if who.TheHub? then s.hub else s.catchUp
  }

  ghost function WithCall(s: State, who: Who, c: Call): State {
    if who.TheHub? then s.(hub := c) else s.(catchUp := c)
  }

  ghost predicate Enabled(s: State, a: Action) {
    match a
    case BeginAdd(who, t, info) => CallOf(s, who).Quiet? && t in s.idOf && info.id == s.idOf[t]
    case Place(who, p) => CallOf(s, who).Checked? && Possible(s.books.senders, p)
    case Record(who, _) => CallOf(s, who).Sent?
    case BeginRemove(t, id) => s.hub.Quiet? && t in s.idOf && id == s.idOf[t]
    case Forget => s.hub.Found?
    case Drop(_) => s.hub.Forgot? && s.hub.slot < |s.books.senders|
  }

  ghost function Do(s: State, a: Action): State
    requires Enabled(s, a)
  {
    match a
    case BeginAdd(who, t, info) =>
      if t in Active(s.books.senders) then s else WithCall(s, who, Checked(t, info))
    case Place(who, p) =>
      var c := CallOf(s, who);
      if p.Refused? then WithCall(s, who, Quiet)
      else WithCall(s, who, Sent(c.t, c.info)).(books := s.books.(senders := Placed(s.books.senders, c.t, p)))
    case Record(who, mid) =>
      var c := CallOf(s, who);
      WithCall(s, who, Quiet).(books := s.books.(infos := Recorded(s.books.infos, c.t, c.info, mid)))
    case BeginRemove(t, id) =>
      var slot := SenderOf(s.books.senders, t);
      if slot.None? then s else s.(hub := Found(t, id, slot.value))
    case Forget =>
      s.(hub := Forgot(s.hub.t, s.hub.slot), books := s.books.(infos := s.books.infos - {s.hub.id}))
    case Drop(ok) =>
      s.(hub := Quiet, books := if ok then s.books.(senders := s.books.senders[s.hub.slot := None]) else s.books)
  }

  ghost function Recorded(infos: map<InfoId, Info>, t: TrackId, info: Info, mid: string): map<InfoId, Info> {
    infos[info.id := info.(egressTrackId := t, egressMid := mid)]
  }

  ghost function Next(s: State, a: Action): Option<State> {
    if Enabled(s, a) then Some(Do(s, a)) else None
  }

  /** Left alone, the steps of the hub's calls amount to the calls they split. */
  lemma AddStepsCompose(s: State, t: TrackId, info: Info, p: Placement, mid: string)
    requires s.hub.Quiet? && Possible(s.books.senders, p) && Enabled(s, BeginAdd(TheHub, t, info))
    ensures var s1 := Do(s, BeginAdd(TheHub, t, info));
      if t in Active(s.books.senders) then s1 == s && AddedTo(s.books, t, info, p, mid) == s.books
      else
        && Enabled(s1, Place(TheHub, p))
        && var s2 := Do(s1, Place(TheHub, p));
        (if p.Refused? then s2 else if Enabled(s2, Record(TheHub, mid)) then Do(s2, Record(TheHub, mid)) else s1)
          == s.(books := AddedTo(s.books, t, info, p, mid))
  {
  }

  lemma RemoveStepsCompose(s: State, t: TrackId, id: InfoId, ok: bool)
    requires s.hub.Quiet? && Enabled(s, BeginRemove(t, id))
    ensures var s1 := Do(s, BeginRemove(t, id));
      if SenderOf(s.books.senders, t).None? then s1 == s && RemovedFrom(s.books, t, id, ok) == s.books
      else
        && Enabled(s1, Forget) && Enabled(Do(s1, Forget), Drop(ok))
        && Do(Do(s1, Forget), Drop(ok)) == s.(books := RemovedFrom(s.books, t, id, ok))
  {
  }

  // The invariant

  /** The call is between the two halves of what it does to track `t`. */
  ghost predicate Between(c: Call, t: TrackId) {
    (c.Sent? || c.Forgot?) && c.t == t
  }

  ghost predicate CallInv(senders: seq<Option<TrackId>>, idOf: map<TrackId, InfoId>, c: Call) {
    match c
    case Quiet => true
    case Checked(t, info) => t in idOf && info.id == idOf[t]
    case Sent(t, info) => t in idOf && info.id == idOf[t] && t in Active(senders)
    case Found(t, id, slot) => t in idOf && id == idOf[t] && slot < |senders| && senders[slot] == Some(t)
    case Forgot(t, slot) => t in idOf && slot < |senders| && senders[slot] == Some(t)
  }

  /** Records and senders in step but for the one track each call is in the middle of; no two calls in the middle of
      the same track. */
  ghost predicate InStep(books: Ledger, hub: Call, catchUp: Call) {
    && DistinctSenders(books.senders)
    && (forall t :: t in Named(books.infos) <==> t in Active(books.senders) && !Between(hub, t) && !Between(catchUp, t))
    && (forall t :: !(Between(hub, t) && Between(catchUp, t)))
  }

  ghost predicate Tidy(s: State) {
    && InStep(s.books, s.hub, s.catchUp)
    && Injective(s.idOf) && RecordsPaired(s.books, s.idOf)
    && CallInv(s.books.senders, s.idOf, s.hub) && CallInv(s.books.senders, s.idOf, s.catchUp)
    && !s.catchUp.Found? && !s.catchUp.Forgot?
  }

  /** The steps that put them out of step: placing a track that is being sent by now, deleting the record of a track
      whose addition has still to store it, and a refused drop. */
  ghost predicate Clash(s: State, a: Action)
    requires Enabled(s, a)
  {
    match a
    case Place(who, p) => !p.Refused? && CallOf(s, who).t in Active(s.books.senders)
    case Forget => Between(s.catchUp, s.hub.t)
    case Drop(ok) => !ok
    case _ => false
  }

  lemma CallStaysRight(senders: seq<Option<TrackId>>, t: TrackId, p: Placement, idOf: map<TrackId, InfoId>, c: Call)
    requires Possible(senders, p) && !p.Refused? && CallInv(senders, idOf, c)
    ensures CallInv(Placed(senders, t, p), idOf, c)
  {
    ActiveAfterPlacing(senders, t, p);
  }

  lemma PlaceKeepsTidy(s: State, who: Who, p: Placement)
    requires Tidy(s) && Enabled(s, Place(who, p)) && !p.Refused? && CallOf(s, who).t !in Active(s.books.senders)
    ensures Tidy(Do(s, Place(who, p)))
  {
    ActiveAfterPlacing(s.books.senders, CallOf(s, who).t, p);
    CallStaysRight(s.books.senders, CallOf(s, who).t, p, s.idOf, s.hub);
    CallStaysRight(s.books.senders, CallOf(s, who).t, p, s.idOf, s.catchUp);
  }

  lemma RecordIsNew(s: State, c: Call)
    requires Tidy(s) && c.Sent? && (c == s.hub || c == s.catchUp)
    ensures c.info.id !in s.books.infos && c.t in Active(s.books.senders) && c.t !in Named(s.books.infos)
  {
    assert Between(c, c.t);
    assert forall k :: k in s.books.infos ==> s.books.infos[k].egressTrackId in Named(s.books.infos);
  }

  lemma RecordKeepsTidy(s: State, who: Who, mid: string)
    requires Tidy(s) && Enabled(s, Record(who, mid))
    ensures Tidy(Do(s, Record(who, mid)))
  {
    var c := CallOf(s, who);
    RecordIsNew(s, c);
    NamedWith(s.books.infos, c.info.id, c.info.(egressTrackId := c.t, egressMid := mid));
  }

  lemma PairedIsUnique(s: State)
    requires Injective(s.idOf) && RecordsPaired(s.books, s.idOf)
    ensures UniqueEgressIds(s.books.infos)
  {
  }

  lemma ForgetKeepsTidy(s: State)
    requires Tidy(s) && Enabled(s, Forget) && !Between(s.catchUp, s.hub.t)
    ensures Tidy(Do(s, Forget))
  {
    var t := s.hub.t;
    assert s.books.senders[s.hub.slot] == Some(t) && t in Active(s.books.senders);
    var k :| k in s.books.infos && s.books.infos[k].egressTrackId == t;
    assert k == s.hub.id;
    PairedIsUnique(s);
    NamedWithout(s.books.infos, k);
  }

  lemma DropTakesOne(senders: seq<Option<TrackId>>, slot: nat, t: TrackId)
    requires DistinctSenders(senders) && slot < |senders| && senders[slot] == Some(t)
    ensures Active(senders[slot := None]) == Active(senders) - {t} && DistinctSenders(senders[slot := None])
  {
    SenderIsFirst(senders, t, slot);
    ActiveAfterRemoving(senders, t);
  }

  lemma DropKeepsTidy(s: State)
    requires Tidy(s) && Enabled(s, Drop(true))
    ensures Tidy(Do(s, Drop(true)))
  {
    assert Between(s.hub, s.hub.t);
    DropTakesOne(s.books.senders, s.hub.slot, s.hub.t);
  }

  lemma ClashBreaksTidy(s: State, a: Action)
    requires Tidy(s) && Enabled(s, a) && Clash(s, a)
    ensures !Tidy(Do(s, a))
  {
    match a {
      case Place(who, p) =>
        var t := CallOf(s, who).t;
        var i :| 0 <= i < |s.books.senders| && s.books.senders[i] == Some(t);
        var after, at := Placed(s.books.senders, t, p), if p.Reused? then p.slot else |s.books.senders|;
        assert after[i] == after[at] == Some(t) && i != at;
      case Forget =>
        assert Between(Do(s, a).hub, s.hub.t);
      case Drop(_) =>
        assert Between(s.hub, s.hub.t) && s.books.senders[s.hub.slot] == Some(s.hub.t);
        assert s.hub.t in Active(s.books.senders) && s.hub.t !in Named(s.books.infos);
    }
  }

  /** A step keeps records and senders in step exactly when it is none of the three. */
  lemma StepKeepsTidyIff(s: State, a: Action)
    requires Tidy(s) && Enabled(s, a)
    ensures Tidy(Do(s, a)) <==> !Clash(s, a)
  {
    if Clash(s, a) {
      ClashBreaksTidy(s, a);
    } else {
      match a {
        case Place(who, p) =>
          if !p.Refused? {
            PlaceKeepsTidy(s, who, p);
          }
        case Record(who, mid) => RecordKeepsTidy(s, who, mid);
        case Forget => ForgetKeepsTidy(s);
        case Drop(_) => DropKeepsTidy(s);
        case _ =>
      }
    }
  }

  ghost predicate Fits(s: State, a: Action) {
    Enabled(s, a) && !Clash(s, a)
  }

  /** Over a whole run, records and senders are in step at every point if and only if no step clashes. */
  lemma TidyIffNoClash(states: seq<State>, actions: seq<Action>, n: nat)
    requires IsPath(Next, states, actions) && n < |states| && Tidy(states[0])
    ensures (forall i :: 0 <= i <= n ==> Tidy(states[i])) <==> (forall i :: 0 <= i < n ==> Fits(states[i], actions[i]))
  {
    forall s, a | Tidy(s) && Enabled(s, a) ensures Tidy(Do(s, a)) <==> Fits(s, a) {
      StepKeepsTidyIff(s, a);
    }
    GoodPathIff(Next, Fits, Tidy, states, actions, n);
  }

  /** Between calls that means: every record names an active track and every active track has exactly one record. */
  lemma TidyIsKept(s: State)
    requires Tidy(s) && s.hub.Quiet? && s.catchUp.Quiet?
    ensures Kept(s.books)
  {
    PairedIsUnique(s);
  }

  /** The hub's whole removal, while the catch-up has placed the track and not recorded it. */
  lemma RemoveBetween(states0: seq<State>, actions0: seq<Action>, t: TrackId, info: Info)
    returns (states: seq<State>, actions: seq<Action>)
    requires IsPath(Next, states0, actions0)
    requires states0[|actions0|] == State(Ledger([Some(t)], map[]), Quiet, Sent(t, info), map[t := info.id])
    ensures IsPath(Next, states, actions) && states[0] == states0[0]
    ensures states[|actions|] == State(Ledger([None], map[]), Quiet, Sent(t, info), map[t := info.id])
  {
    states, actions := Extend(Next, states0, actions0, BeginRemove(t, info.id));
    states, actions := Extend(Next, states, actions, Forget);
    states, actions := Extend(Next, states, actions, Drop(true));
    assert states[|actions|].books.senders == [None];
  }

  /** It happens: the hub removes a track that the catch-up has placed and not recorded yet, and the record stored
      afterwards belongs to no sender. Every call succeeds and all calls have returned. */
  lemma StrayRecordHappens(t: TrackId, info: Info)
    ensures exists states: seq<State>, actions: seq<Action> ::
      && IsPath(Next, states, actions)
      && states[0] == State(Ledger([], map[]), Quiet, Quiet, map[t := info.id]) && Tidy(states[0])
      && var end := states[|actions|];
         end.hub.Quiet? && end.catchUp.Quiet? && Active(end.books.senders) == {} && t in Named(end.books.infos)
  {
    var start := State(Ledger([], map[]), Quiet, Quiet, map[t := info.id]);
    var states, actions := Extend(Next, [start], [], BeginAdd(TheCatchUp, t, info));
    states, actions := Extend(Next, states, actions, Place(TheCatchUp, Appended));
    assert states[|actions|].books.senders == [Some(t)];
    states, actions := RemoveBetween(states, actions, t, info);
    states, actions := Extend(Next, states, actions, Record(TheCatchUp, ""));
    assert states[|actions|].books.infos[info.id].egressTrackId == t;
  }
}
