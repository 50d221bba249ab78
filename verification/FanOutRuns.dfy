/** What a session's egress endpoint agrees on with the hub, over every run. */
module FanOutRuns {
  import opened Wrappers
  import opened TrackInfo
  import opened Hub
  import opened FanOut
  import opened Runs

  ghost function Next(n: Net, a: Action): Option<Net> {
    if Enabled(n, a) then Some(Do(n, a)) else None
  }

  ghost predicate IsRun(states: seq<Net>, actions: seq<Action>) {
    IsPath(Next, states, actions) && Init(states[0])
  }

  lemma RunKeepsInv(states: seq<Net>, actions: seq<Action>, i: nat)
    requires IsRun(states, actions) && i < |states|
    ensures Inv(states[i])
  {
    forall n, a | Inv(n) && Enabled(n, a) ensures Inv(Do(n, a)) {
      StepKeepsInv(n, a);
    }
    Keeps(Next, Inv, states, actions, 0, i);
  }

  lemma PeerInOrder(states: seq<Net>, actions: seq<Action>, i: nat, x: SessionId)
    requires IsRun(states, actions) && i < |states| && x in states[i].peers
    ensures InOrder(states[i], x, states[i].peers[x])
  {
    RunKeepsInv(states, actions, i);
  }

  /** No echo: neither the egress nor the pending snapshot of any session ever names a track of that session. */
  lemma NoEcho(states: seq<Net>, actions: seq<Action>, i: nat, x: SessionId, id: TrackId)
    requires IsRun(states, actions) && i < |states| && x in states[i].peers
    requires id in states[i].peers[x].egress + Pending(states[i].peers[x])
    ensures id in states[i].seen && states[i].seen[id].info.sessionId != x
  {
    PeerInOrder(states, actions, i, x);
  }

  /** Catch-up completeness, in every state after the snapshot: a hub track of another session is being sent, is
      still pending, is still due, skipped this session, or was refused by its peer connection. */
  lemma NothingForgotten(states: seq<Net>, actions: seq<Action>, i: nat, x: SessionId, id: TrackId)
    requires IsRun(states, actions) && i < |states| && x in states[i].peers
    requires states[i].peers[x].registered && states[i].peers[x].phase.Catching? && id in Others(states[i].tracks, x)
    ensures var p := states[i].peers[x];
      id in p.egress || id in Pending(p) || id in p.missed || id in p.refused || Due(states[i].hub, x, id, true)
  {
    PeerInOrder(states, actions, i, x);
  }

  /** Exact agreement, with no hypothesis on locks or refusals: between two hub events, what a session sends or has
      pending is the hub tracks of the others, less the additions that skipped it or were refused, plus the three
      kinds of stale tracks that were not refused. */
  lemma CatchUpExact(states: seq<Net>, actions: seq<Action>, i: nat, x: SessionId)
    requires IsRun(states, actions) && i < |states| && x in states[i].peers
    requires states[i].peers[x].registered && states[i].peers[x].phase.Catching? && states[i].hub.Idle?
    ensures var n, p := states[i], states[i].peers[x];
      && p.egress + Pending(p) == (Others(n.tracks, x) - p.missed - p.refused) + (Stale(p) - p.refused)
      && p.missed + p.refused !! p.egress + Pending(p)
      && Stale(p) !! n.tracks.Keys
  {
    PeerInOrder(states, actions, i, x);
    var n, p := states[i], states[i].peers[x];
    assert Tracking(n.tracks, n.gone, Idle, x, p);
    assert Stale(p) !! n.tracks.Keys;
  }

  // The five history fields, told from the run

  /** Step `i` hands an event about `id` to `x`, or skips it. */
  ghost predicate Meets(states: seq<Net>, actions: seq<Action>, i: nat, x: SessionId, id: TrackId, added: bool, heard: bool)
    requires IsRun(states, actions) && i < |actions|
  {
    var n, a := states[i], actions[i];
    a.Visit? && a.x == x && a.heard == heard && Passes(x, n.hub.ev.track) && n.hub.ev.Added? == added && n.hub.ev.track.id == id
  }

  /** The removal of `id` reaches `x` while `id` is still pending there. */
  ghost predicate RemovedWhilePending(states: seq<Net>, actions: seq<Action>, i: nat, x: SessionId, id: TrackId)
    requires IsRun(states, actions) && i < |actions|
  {
    Meets(states, actions, i, x, id, false, true) && id in Pending(states[i].peers[x])
  }

  /** The removal of a track that `x` sends or has pending skips it. */
  ghost predicate RemovalSkipped(states: seq<Net>, actions: seq<Action>, i: nat, x: SessionId, id: TrackId)
    requires IsRun(states, actions) && i < |actions|
  {
    Meets(states, actions, i, x, id, false, false) && id in states[i].peers[x].egress + Pending(states[i].peers[x])
  }

  /** The removal of a track that `x` sends is refused by the peer connection. */
  ghost predicate RemovalRefused(states: seq<Net>, actions: seq<Action>, i: nat, x: SessionId, id: TrackId)
    requires IsRun(states, actions) && i < |actions|
  {
    Meets(states, actions, i, x, id, false, true) && !actions[i].ok && id in states[i].peers[x].egress
  }

  /** An addition after its snapshot skips `x`. */
  ghost predicate AdditionSkipped(states: seq<Net>, actions: seq<Action>, i: nat, x: SessionId, id: TrackId)
    requires IsRun(states, actions) && i < |actions|
  {
    Meets(states, actions, i, x, id, true, false) && states[i].peers[x].phase.Catching?
  }

  /** The peer connection of `x` refuses a track, of the snapshot or added after it, that it does not send yet. */
  ghost predicate AdditionRefused(states: seq<Net>, actions: seq<Action>, i: nat, x: SessionId, id: TrackId)
    requires IsRun(states, actions) && i < |actions|
  {
    && (Meets(states, actions, i, x, id, true, true) || actions[i] == Apply(x, false))
    && !actions[i].ok
    && var p := states[i].peers[x];
       id !in p.egress && p.phase.Catching? && (actions[i].Apply? ==> p.phase.pending[0] == id)
  }

  datatype Mark = Missed | Refused | Late | Kept | Stuck

  ghost function Marked(p: Peer, mark: Mark): set<TrackId> {
    match mark
    case Missed => p.missed
    case Refused => p.refused
    case Late => p.late
    case Kept => p.kept
    case Stuck => p.stuck
  }

  ghost predicate Marks(states: seq<Net>, actions: seq<Action>, i: nat, x: SessionId, id: TrackId, mark: Mark)
    requires IsRun(states, actions) && i < |actions|
  {
    match mark
    case Missed => AdditionSkipped(states, actions, i, x, id)
    case Refused => AdditionRefused(states, actions, i, x, id)
    case Late => RemovedWhilePending(states, actions, i, x, id)
    case Kept => RemovalSkipped(states, actions, i, x, id)
    case Stuck => RemovalRefused(states, actions, i, x, id)
  }

  /** Some step before `n` does so. */
  ghost predicate MarkedBy(states: seq<Net>, actions: seq<Action>, n: nat, x: SessionId, id: TrackId, mark: Mark)
    requires IsRun(states, actions) && n <= |actions|
  {
    exists i :: 0 <= i < n && Marks(states, actions, i, x, id, mark)
  }

  lemma OneMoreStep(states: seq<Net>, actions: seq<Action>, n: nat, x: SessionId, id: TrackId, mark: Mark)
    requires IsRun(states, actions) && n < |actions|
    ensures MarkedBy(states, actions, n + 1, x, id, mark) <==>
              MarkedBy(states, actions, n, x, id, mark) || Marks(states, actions, n, x, id, mark)
  {
  }

  /** One visit changes the history fields of `x` only as those predicates say. */
  lemma VisitMarks(states: seq<Net>, actions: seq<Action>, i: nat, x: SessionId, id: TrackId, mark: Mark)
    requires IsRun(states, actions) && i < |actions| && x in states[i].peers && actions[i].Visit? && actions[i].x == x
    ensures x in states[i+1].peers
    ensures id in Marked(states[i+1].peers[x], mark) <==>
              id in Marked(states[i].peers[x], mark) || Marks(states, actions, i, x, id, mark)
  {
    assert Next(states[i], actions[i]) == Some(states[i+1]);
    assert states[i+1].peers[x] == Delivered(states[i].peers[x], x, states[i].hub.ev, actions[i].heard, actions[i].ok);
  }

  lemma ApplyMarks(states: seq<Net>, actions: seq<Action>, i: nat, x: SessionId, id: TrackId, mark: Mark)
    requires IsRun(states, actions) && i < |actions| && x in states[i].peers && actions[i].Apply? && actions[i].x == x
    ensures x in states[i+1].peers
    ensures id in Marked(states[i+1].peers[x], mark) <==>
              id in Marked(states[i].peers[x], mark) || Marks(states, actions, i, x, id, mark)
  {
    assert Next(states[i], actions[i]) == Some(states[i+1]);
    assert states[i+1].peers[x] == Applied(states[i].peers[x], actions[i].ok);
  }

  /** Any other step marks nothing for `x`. */
  lemma OtherStepMarksNothing(states: seq<Net>, actions: seq<Action>, i: nat, x: SessionId, id: TrackId, mark: Mark)
    requires IsRun(states, actions) && i < |actions| && x in states[i].peers
    requires !((actions[i].Visit? || actions[i].Apply?) && actions[i].x == x)
    ensures x in states[i+1].peers && Marked(states[i+1].peers[x], mark) == Marked(states[i].peers[x], mark)
    ensures !Marks(states, actions, i, x, id, mark)
  {
    assert Next(states[i], actions[i]) == Some(states[i+1]);
  }

  lemma HistoryStep(states: seq<Net>, actions: seq<Action>, i: nat, x: SessionId, id: TrackId, mark: Mark)
    requires IsRun(states, actions) && i < |actions| && x in states[i].peers
    ensures x in states[i+1].peers
    ensures id in Marked(states[i+1].peers[x], mark) <==>
              id in Marked(states[i].peers[x], mark) || Marks(states, actions, i, x, id, mark)
  {
    if actions[i].Visit? && actions[i].x == x {
      VisitMarks(states, actions, i, x, id, mark);
    } else if actions[i].Apply? && actions[i].x == x {
      ApplyMarks(states, actions, i, x, id, mark);
    } else {
      OtherStepMarksNothing(states, actions, i, x, id, mark);
    }
  }

  /** A session that has not joined is not marked by any step so far. */
  lemma {:induction false} NotMarkedBefore(states: seq<Net>, actions: seq<Action>, n: nat, x: SessionId, id: TrackId, mark: Mark)
    requires IsRun(states, actions) && n < |states| && x !in states[n].peers
    ensures !MarkedBy(states, actions, n, x, id, mark)
  {
    if n > 0 {
      assert Next(states[n-1], actions[n-1]) == Some(states[n]);
      NotMarkedBefore(states, actions, n - 1, x, id, mark);
      OneMoreStep(states, actions, n - 1, x, id, mark);
    }
  }

  lemma JoinHistory(states: seq<Net>, actions: seq<Action>, n: nat, x: SessionId, id: TrackId, mark: Mark)
    requires IsRun(states, actions) && n < |actions| && x !in states[n].peers && x in states[n+1].peers
    ensures id !in Marked(states[n+1].peers[x], mark) && !MarkedBy(states, actions, n + 1, x, id, mark)
  {
    assert Next(states[n], actions[n]) == Some(states[n+1]);
    assert actions[n] == Join(x);
    NotMarkedBefore(states, actions, n, x, id, mark);
    OneMoreStep(states, actions, n, x, id, mark);
  }

  /** A session is marked with a track exactly when some step of the run did so. */
  lemma {:induction false} HistoryIff(states: seq<Net>, actions: seq<Action>, n: nat, x: SessionId, id: TrackId, mark: Mark)
    requires IsRun(states, actions) && n < |states| && x in states[n].peers
    ensures id in Marked(states[n].peers[x], mark) <==> MarkedBy(states, actions, n, x, id, mark)
  {
    if n > 0 {
      if x in states[n-1].peers {
        HistoryIff(states, actions, n - 1, x, id, mark);
        HistoryStep(states, actions, n - 1, x, id, mark);
        OneMoreStep(states, actions, n - 1, x, id, mark);
      } else {
        JoinHistory(states, actions, n - 1, x, id, mark);
      }
    }
  }

  /** Catch-up completeness, exactly: between two hub events after its snapshot, a session sends or has pending every
      hub track of the others if and only if none of those tracks skipped it or was refused. */
  lemma CompleteIffNothingLost(states: seq<Net>, actions: seq<Action>, i: nat, x: SessionId)
    requires IsRun(states, actions) && i < |states| && x in states[i].peers
    requires states[i].peers[x].registered && states[i].peers[x].phase.Catching? && states[i].hub.Idle?
    ensures var n, p := states[i], states[i].peers[x];
      Others(n.tracks, x) <= p.egress + Pending(p) <==>
        forall id :: id in Others(n.tracks, x) ==>
          !MarkedBy(states, actions, i, x, id, Missed) && !MarkedBy(states, actions, i, x, id, Refused)
  {
    var n, p := states[i], states[i].peers[x];
    CatchUpExact(states, actions, i, x);
    forall id | id in Others(n.tracks, x)
      ensures id in p.missed + p.refused <==>
                MarkedBy(states, actions, i, x, id, Missed) || MarkedBy(states, actions, i, x, id, Refused)
    {
      HistoryIff(states, actions, i, x, id, Missed);
      HistoryIff(states, actions, i, x, id, Refused);
    }
    assert Others(n.tracks, x) <= p.egress + Pending(p) <==> Others(n.tracks, x) !! p.missed + p.refused;
  }

  // Runs in which every hub event that matters to a session finds its lock free

  /** An event matters once the session has its snapshot or sends anything; before that a skip is harmless. */
  ghost predicate Matters(p: Peer) {
    p.phase.Catching? || p.egress != {}
  }

  ghost predicate Undisturbed(states: seq<Net>, actions: seq<Action>, x: SessionId)
    requires IsRun(states, actions)
  {
    forall i :: 0 <= i < |actions| && actions[i].Visit? && actions[i].x == x && x in states[i].peers ==>
      (Matters(states[i].peers[x]) ==> states[i].peers[x].lock.Free? && !states[i].peers[x].stopped)
  }

  /** The peer connection of `x` agrees to every call. */
  ghost predicate Agreeing(actions: seq<Action>, x: SessionId) {
    forall i :: 0 <= i < |actions| && (actions[i].Visit? || actions[i].Apply?) && actions[i].x == x ==> actions[i].ok
  }

  /** Then only a taken lock or a stopped session lets an event skip it. */
  lemma SkippedOnlyByLock(n: Net, x: SessionId, ok: bool)
    requires Inv(n) && Enabled(n, Visit(x, false, ok)) && Matters(n.peers[x])
    ensures !n.peers[x].lock.Free? || n.peers[x].stopped
  {
    assert InOrder(n, x, n.peers[x]);
  }

  lemma UndisturbedStep(states: seq<Net>, actions: seq<Action>, i: nat, x: SessionId, id: TrackId)
    requires IsRun(states, actions) && i < |actions| && Undisturbed(states, actions, x)
    ensures !Marks(states, actions, i, x, id, Kept) && !Marks(states, actions, i, x, id, Missed)
  {
    if actions[i].Visit? && actions[i].x == x && !actions[i].heard && Matters(states[i].peers[x]) {
      RunKeepsInv(states, actions, i);
      SkippedOnlyByLock(states[i], x, actions[i].ok);
    }
  }

  lemma UndisturbedSkipsNothing(states: seq<Net>, actions: seq<Action>, i: nat, x: SessionId)
    requires IsRun(states, actions) && i < |states| && x in states[i].peers && Undisturbed(states, actions, x)
    ensures states[i].peers[x].missed == {} && states[i].peers[x].kept == {}
  {
    forall id ensures id !in states[i].peers[x].missed && id !in states[i].peers[x].kept {
      forall j | 0 <= j < i
        ensures !Marks(states, actions, j, x, id, Kept) && !Marks(states, actions, j, x, id, Missed)
      {
        UndisturbedStep(states, actions, j, x, id);
      }
      HistoryIff(states, actions, i, x, id, Missed);
      HistoryIff(states, actions, i, x, id, Kept);
    }
  }

  lemma AgreeingRefusesNothing(states: seq<Net>, actions: seq<Action>, i: nat, x: SessionId)
    requires IsRun(states, actions) && i < |states| && x in states[i].peers && Agreeing(actions, x)
    ensures states[i].peers[x].refused == {} && states[i].peers[x].stuck == {}
  {
    forall id ensures id !in states[i].peers[x].refused && id !in states[i].peers[x].stuck {
      HistoryIff(states, actions, i, x, id, Refused);
      HistoryIff(states, actions, i, x, id, Stuck);
    }
  }

  /** With free locks no hub track of another session is lost on the way, unless the peer connection refused it. */
  lemma UndisturbedIsComplete(states: seq<Net>, actions: seq<Action>, i: nat, x: SessionId, id: TrackId)
    requires IsRun(states, actions) && i < |states| && x in states[i].peers && Undisturbed(states, actions, x)
    requires states[i].peers[x].registered && states[i].peers[x].phase.Catching? && id in Others(states[i].tracks, x)
    ensures var p := states[i].peers[x];
      || id in p.egress || id in Pending(p) || Due(states[i].hub, x, id, true)
      || MarkedBy(states, actions, i, x, id, Refused)
  {
    NothingForgotten(states, actions, i, x, id);
    UndisturbedSkipsNothing(states, actions, i, x);
    HistoryIff(states, actions, i, x, id, Refused);
  }

  /** With free locks, nothing pending and the hub between two events: the hub tracks of the others that a session
      does not send are those refused, and the tracks it sends beyond them are those whose removal came between its
      snapshot and their application, or was refused, and that were not refused themselves. */
  lemma DifferenceIff(states: seq<Net>, actions: seq<Action>, i: nat, x: SessionId, id: TrackId)
    requires IsRun(states, actions) && i < |states| && x in states[i].peers && Undisturbed(states, actions, x)
    requires states[i].peers[x].registered && states[i].peers[x].phase == Catching([]) && states[i].hub.Idle?
    ensures var others, egress := Others(states[i].tracks, x), states[i].peers[x].egress;
      && (id in others - egress <==> id in others && MarkedBy(states, actions, i, x, id, Refused))
      && (id in egress - others <==>
            && (MarkedBy(states, actions, i, x, id, Late) || MarkedBy(states, actions, i, x, id, Stuck))
            && !MarkedBy(states, actions, i, x, id, Refused))
  {
    CatchUpExact(states, actions, i, x);
    UndisturbedSkipsNothing(states, actions, i, x);
    HistoryIff(states, actions, i, x, id, Refused);
    HistoryIff(states, actions, i, x, id, Late);
    HistoryIff(states, actions, i, x, id, Stuck);
    assert Pending(states[i].peers[x]) == {};
  }

  /** Stale tracks are exactly characterised: if the peer connection agrees to every call as well, a session sends a
      track the hub does not have exactly when its removal came between the session's snapshot and its application;
      everything else agrees. */
  lemma StaleIffRemovedWhilePending(states: seq<Net>, actions: seq<Action>, i: nat, x: SessionId)
    requires IsRun(states, actions) && i < |states| && x in states[i].peers
    requires Undisturbed(states, actions, x) && Agreeing(actions, x)
    requires states[i].peers[x].registered && states[i].peers[x].phase == Catching([]) && states[i].hub.Idle?
    ensures var others, egress := Others(states[i].tracks, x), states[i].peers[x].egress;
      && others <= egress
      && (forall id :: id in egress - others <==> MarkedBy(states, actions, i, x, id, Late))
      && (egress == others <==> forall id :: !MarkedBy(states, actions, i, x, id, Late))
  {
    var others, egress := Others(states[i].tracks, x), states[i].peers[x].egress;
    AgreeingRefusesNothing(states, actions, i, x);
    forall id ensures (id in others ==> id in egress) && (id in egress - others <==> MarkedBy(states, actions, i, x, id, Late)) {
      DifferenceIff(states, actions, i, x, id);
      HistoryIff(states, actions, i, x, id, Refused);
      HistoryIff(states, actions, i, x, id, Stuck);
    }
    assert egress == others <==> egress - others == {};
  }

  // A track lost after the snapshot never comes back

  ghost predicate IsLost(n: Net, x: SessionId, id: TrackId) {
    Inv(n) && x in n.peers && id in n.peers[x].missed + n.peers[x].refused
  }

  lemma LocalKeepsLost(p: Peer, a: Action)
    ensures Local(p, a).missed == p.missed && p.refused <= Local(p, a).refused
  {
  }

  lemma VisitKeepsLost(p: Peer, x: SessionId, ev: Event, heard: bool, ok: bool)
    ensures p.missed <= Delivered(p, x, ev, heard, ok).missed && p.refused <= Delivered(p, x, ev, heard, ok).refused
  {
  }

  lemma LostGrows(n: Net, a: Action, x: SessionId)
    requires Enabled(n, a) && x in n.peers
    ensures x in Do(n, a).peers
    ensures n.peers[x].missed <= Do(n, a).peers[x].missed && n.peers[x].refused <= Do(n, a).peers[x].refused
  {
    if a.Visit? {
      VisitKeepsLost(n.peers[x], x, n.hub.ev, a.heard, a.ok);
    } else if IsLocal(a) {
      LocalKeepsLost(n.peers[x], a);
    }
  }

  lemma StepKeepsLost(n: Net, a: Action, x: SessionId, id: TrackId)
    requires IsLost(n, x, id) && Enabled(n, a)
    ensures IsLost(Do(n, a), x, id)
  {
    StepKeepsInv(n, a);
    LostGrows(n, a, x);
  }

  /** Whatever happens from state `n` on, `x` never sends track `id`. */
  ghost predicate NeverArrives(n: Net, x: SessionId, id: TrackId) {
    forall states: seq<Net>, actions: seq<Action>, j: nat ::
      IsPath(Next, states, actions) && states[0] == n && j < |states| ==>
        x in states[j].peers && id !in states[j].peers[x].egress
  }

  /** An addition that skipped a session after its snapshot, or was refused, is lost for good. */
  lemma LostForGood(states: seq<Net>, actions: seq<Action>, i: nat, x: SessionId, id: TrackId)
    requires IsRun(states, actions) && i < |states| && x in states[i].peers
    requires MarkedBy(states, actions, i, x, id, Missed) || MarkedBy(states, actions, i, x, id, Refused)
    ensures NeverArrives(states[i], x, id)
  {
    HistoryIff(states, actions, i, x, id, Missed);
    HistoryIff(states, actions, i, x, id, Refused);
    RunKeepsInv(states, actions, i);
    forall path: seq<Net>, steps: seq<Action>, j: nat | IsPath(Next, path, steps) && path[0] == states[i] && j < |path|
      ensures x in path[j].peers && id !in path[j].peers[x].egress
    {
      PathKeepsLost(path, steps, j, x, id);
    }
  }

  lemma PathKeepsLost(states: seq<Net>, actions: seq<Action>, j: nat, x: SessionId, id: TrackId)
    requires IsPath(Next, states, actions) && j < |states| && IsLost(states[0], x, id)
    ensures x in states[j].peers && id !in states[j].peers[x].egress
  {
    forall n, a | IsLost(n, x, id) && Enabled(n, a) ensures IsLost(Do(n, a), x, id) {
      StepKeepsLost(n, a, x, id);
    }
    Keeps(Next, n => IsLost(n, x, id), states, actions, 0, j);
    assert InOrder(states[j], x, states[j].peers[x]);
  }

  // Both failures happen

  /** A run that leaves `x` undisturbed, its peer connection agreeing to every call. */
  ghost predicate Smooth(states: seq<Net>, actions: seq<Action>, x: SessionId) {
    IsRun(states, actions) && Undisturbed(states, actions, x) && Agreeing(actions, x)
  }

  lemma SmoothExtend(states: seq<Net>, actions: seq<Action>, x: SessionId, a: Action)
    returns (states': seq<Net>, actions': seq<Action>)
    requires Smooth(states, actions, x) && Next(states[|actions|], a).Some?
    requires a.Apply? ==> a.ok
    requires a.Visit? ==> a.ok && (x in states[|actions|].peers && Matters(states[|actions|].peers[x]) ==> Hears(states[|actions|].peers[x]))
    requires x in states[|actions|].peers ==> !states[|actions|].peers[x].stopped
    ensures Smooth(states', actions', x) && states'[|actions'|] == Do(states[|actions|], a)
  {
    states', actions' := Extend(Next, states, actions, a);
    forall i | 0 <= i < |actions'| && actions'[i].Visit? && actions'[i].x == x && x in states'[i].peers
      ensures Matters(states'[i].peers[x]) ==> states'[i].peers[x].lock.Free? && !states'[i].peers[x].stopped
    {
      assert states'[i] == states[i];
      if i < |actions| {
        assert actions'[i] == actions[i];
      }
    }
  }

  ghost function Joined(x: SessionId, tracks: map<TrackId, Track>): Net {
    Net(map[x := NewPeer()], tracks, tracks, {}, Idle)
  }

  /** Session `x` alone, its endpoint ready and its snapshot taken while its lock is still held. */
  ghost function Ready(x: SessionId, tracks: map<TrackId, Track>, order: seq<TrackId>): Net {
    Net(map[x := NewPeer().(lock := Built, ready := true, phase := Catching(order))], tracks, tracks, {}, Idle)
  }

  lemma JoinRun(x: SessionId) returns (states: seq<Net>, actions: seq<Action>)
    ensures Smooth(states, actions, x) && states[|actions|] == Joined(x, map[])
  {
    states, actions := [Net(map[], map[], map[], {}, Idle)], [];
    states, actions := SmoothExtend(states, actions, x, Join(x));
  }

  lemma JoinAddRun(x: SessionId, t: Track) returns (states: seq<Net>, actions: seq<Action>)
    ensures Smooth(states, actions, x) && states[|actions|] == Joined(x, map[t.id := t])
  {
    states, actions := JoinRun(x);
    states, actions := SmoothExtend(states, actions, x, AddTrack(t));
    assert Registered(Joined(x, map[])) == {x};
    states, actions := SmoothExtend(states, actions, x, Visit(x, false, true));
    states, actions := SmoothExtend(states, actions, x, Finish);
  }

  lemma SnapshotRun(states0: seq<Net>, actions0: seq<Action>, x: SessionId, order: seq<TrackId>)
    returns (states: seq<Net>, actions: seq<Action>)
    requires Smooth(states0, actions0, x) && Distinct(order)
    requires var n := states0[|actions0|]; n == Joined(x, n.tracks) && Others(n.tracks, x) == set id | id in order
    ensures Smooth(states, actions, x) && states[|actions|] == Ready(x, states0[|actions0|].tracks, order)
  {
    states, actions := SmoothExtend(states0, actions0, x, Build(x));
    states, actions := SmoothExtend(states, actions, x, Open(x));
    states, actions := SmoothExtend(states, actions, x, Snapshot(x, order));
  }

  /** The session's only other track is removed between the snapshot and its application, every lock free. */
  lemma StaleRun(states0: seq<Net>, actions0: seq<Action>, x: SessionId, t: Track)
    returns (states: seq<Net>, actions: seq<Action>)
    requires Smooth(states0, actions0, x) && states0[|actions0|] == Ready(x, map[t.id := t], [t.id]) && Passes(x, t)
    ensures Smooth(states, actions, x) && x in states[|actions|].peers
    ensures states[|actions|].hub == Delivering(Removed(t), {}) && states[|actions|].tracks == map[]
    ensures var p := states[|actions|].peers[x]; Hears(p) && !p.stopped && p.phase == Catching([t.id])
  {
    states, actions := SmoothExtend(states0, actions0, x, Attach(x));
    states, actions := SmoothExtend(states, actions, x, Release(x));
    states, actions := SmoothExtend(states, actions, x, RemoveTrack(t));
    assert Registered(Ready(x, map[t.id := t], [t.id])) == {x};
    assert states[|actions|].hub.left == {x};
    states, actions := SmoothExtend(states, actions, x, Visit(x, true, true));
  }

  /** With every lock free and every call agreed to, a session can end up sending a track that no longer exists. */
  lemma StaleTrackHappens(x: SessionId, t: Track)
    requires Passes(x, t)
    ensures exists states: seq<Net>, actions: seq<Action> ::
      && Smooth(states, actions, x) && x in states[|actions|].peers
      && states[|actions|].hub.Idle? && states[|actions|].peers[x].phase == Catching([]) && Hears(states[|actions|].peers[x])
      && t.id in states[|actions|].peers[x].egress && t.id !in states[|actions|].tracks
  {
    var states, actions := JoinAddRun(x, t);
    assert Others(map[t.id := t], x) == {t.id};
    states, actions := SnapshotRun(states, actions, x, [t.id]);
    states, actions := StaleRun(states, actions, x, t);
    states, actions := SmoothExtend(states, actions, x, Finish);
    states, actions := SmoothExtend(states, actions, x, Apply(x, true));
    assert states[|actions|].peers[x].phase == Catching([]);
  }

  /** A track added while the lock is still held skips the session, which then becomes ready. */
  lemma MissedRun(states0: seq<Net>, actions0: seq<Action>, x: SessionId, t: Track)
    returns (states: seq<Net>, actions: seq<Action>)
    requires IsRun(states0, actions0) && Agreeing(actions0, x) && states0[|actions0|] == Ready(x, map[], []) && Passes(x, t)
    ensures IsRun(states, actions) && Agreeing(actions, x)
    ensures states[|actions|] == Skipping(x, t, Delivering(Added(t), {}))
  {
    states, actions := Extend(Next, states0, actions0, AddTrack(t));
    assert Registered(Ready(x, map[], [])) == {x};
    assert states[|actions|].hub.left == {x} && Agreeing(actions, x);
    states, actions := Extend(Next, states, actions, Visit(x, false, true));
    var n, skipping := states[|actions|], Skipping(x, t, Delivering(Added(t), {}));
    assert n.peers[x].missed == {t.id};
    assert n.peers == skipping.peers && n.tracks == skipping.tracks && n.seen == skipping.seen && n.hub == skipping.hub;
  }

  ghost function Skipping(x: SessionId, t: Track, hub: Pc): Net {
    Net(map[x := NewPeer().(lock := Built, ready := true, phase := Catching([]), missed := {t.id})],
        map[t.id := t], map[t.id := t], {}, hub)
  }

  lemma ReleaseRun(states0: seq<Net>, actions0: seq<Action>, x: SessionId, t: Track)
    returns (states: seq<Net>, actions: seq<Action>)
    requires IsRun(states0, actions0) && Agreeing(actions0, x) && states0[|actions0|] == Skipping(x, t, Delivering(Added(t), {}))
    ensures IsRun(states, actions) && Agreeing(actions, x)
    ensures states[|actions|].hub.Idle? && states[|actions|].tracks == map[t.id := t]
    ensures states[|actions|].peers ==
      map[x := NewPeer().(ready := true, attached := true, phase := Catching([]), missed := {t.id})]
  {
    states, actions := Extend(Next, states0, actions0, Finish);
    assert states[|actions|] == Skipping(x, t, Idle) && Agreeing(actions, x);
    states, actions := Extend(Next, states, actions, Attach(x));
    assert Agreeing(actions, x);
    states, actions := Extend(Next, states, actions, Release(x));
  }

  /** A track added after the snapshot, while CreateEgressEndpoint still holds the session lock, never arrives. */
  lemma MissedTrackHappens(x: SessionId, t: Track)
    requires Passes(x, t)
    ensures exists states: seq<Net>, actions: seq<Action> ::
      && IsRun(states, actions) && Agreeing(actions, x) && x in states[|actions|].peers
      && states[|actions|].hub.Idle? && states[|actions|].peers[x].phase == Catching([]) && Hears(states[|actions|].peers[x])
      && t.id in Others(states[|actions|].tracks, x) && NeverArrives(states[|actions|], x, t.id)
  {
    var states, actions := JoinRun(x);
    states, actions := SnapshotRun(states, actions, x, []);
    states, actions := MissedRun(states, actions, x, t);
    states, actions := ReleaseRun(states, actions, x, t);
    HistoryIff(states, actions, |actions|, x, t.id, Missed);
    LostForGood(states, actions, |actions|, x, t.id);
  }
}
