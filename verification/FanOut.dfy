/** Every interleaving of hub events with the catch-up of new egress endpoints.
    The hub delivers one event at a time, session by session, in arbitrary order. A session's egress endpoint
    is built under the session lock; its initialisation completes before the session holds it and before the
    lock is released. From then on the catch-up goroutine may take its snapshot and apply it track by track,
    without the lock. A hub event that meets a taken lock skips the session. The peer connection may refuse any
    call at any time, as it does once it is closed. */
module FanOut {
  import opened Wrappers
  import opened TrackInfo
  import opened Hub

  /** `Building`: inside CreateEgressEndpoint, before initialisation completes; `Built`: after it, before the
      session holds the endpoint; `Busy`: any other critical section. */
  datatype Lock = Free | Busy | Building | Built

  /** Progress of the catch-up goroutine. `Lost` is a snapshot request that timed out. */
  datatype Phase = Waiting | Catching(pending: seq<TrackId>) | Lost

  /** One session. The last five fields are history, why it and the hub disagree on a track: after its snapshot an
      addition skipped it or was refused; a removal reached it while the track was still pending, skipped it, or
      was refused. */
  datatype Peer = Peer(
    registered: bool, stopped: bool, lock: Lock, ready: bool, attached: bool,
    phase: Phase, egress: set<TrackId>,
    missed: set<TrackId>, refused: set<TrackId>, late: set<TrackId>, kept: set<TrackId>, stuck: set<TrackId>)

  datatype Pc = Idle | Delivering(ev: Event, left: set<SessionId>)

  /** `seen` are all tracks ever added; track ids are fresh UUIDs. `gone` are the ids ever removed. */
  datatype Net = Net(
    peers: map<SessionId, Peer>, tracks: map<TrackId, Track>,
    seen: map<TrackId, Track>, gone: set<TrackId>, hub: Pc)

  datatype Action =
    | Join(x: SessionId) | Leave(x: SessionId) | Stop(x: SessionId)
    | Seize(x: SessionId) | Release(x: SessionId)
    | Build(x: SessionId) | BuildFails(x: SessionId) | Open(x: SessionId) | Attach(x: SessionId)
    | AddTrack(t: Track) | RemoveTrack(t: Track) | Visit(x: SessionId, heard: bool, ok: bool) | Finish
    | Snapshot(x: SessionId, order: seq<TrackId>) | LoseSnapshot(x: SessionId) | Apply(x: SessionId, ok: bool)

  ghost predicate Distinct(order: seq<TrackId>) {
    forall i, j :: 0 <= i < j < |order| ==> order[i] != order[j]
  }

  ghost function Pending(p: Peer): set<TrackId> {
    if p.phase.Catching? then set id | id in p.phase.pending else {}
  }

  /** Session.initComplete: the lock is free and the egress endpoint has completed its initialisation. */
  ghost predicate Hears(p: Peer) {
    p.lock.Free? && p.attached && p.ready
  }

  ghost function Registered(n: Net): set<SessionId> {
    set x | x in n.peers && n.peers[x].registered
  }

  ghost function NewPeer(): Peer {
    Peer(true, false, Free, false, false, Waiting, {}, {}, {}, {}, {}, {})
  }

  ghost predicate Enabled(n: Net, a: Action) {
    match a
    case Join(x) => x !in n.peers && n.hub.Idle?
    case Leave(x) => x in n.peers && n.hub.Idle?
    case Stop(x) => x in n.peers
    case Seize(x) => x in n.peers && n.peers[x].lock.Free?
    case Release(x) => x in n.peers && n.peers[x].lock.Busy?
    case Build(x) => x in n.peers && n.peers[x].lock.Free? && !n.peers[x].attached && !n.peers[x].stopped
    case BuildFails(x) => x in n.peers && n.peers[x].lock.Building?
    case Open(x) => x in n.peers && n.peers[x].lock.Building?
    case Attach(x) => x in n.peers && n.peers[x].lock.Built?
    case AddTrack(t) => n.hub.Idle? && t.id !in n.seen
    case RemoveTrack(t) => n.hub.Idle? && t.id !in n.gone &&
      (t.id in n.seen ==> n.seen[t.id].info.sessionId == t.info.sessionId)
    case Visit(x, heard, _) => n.hub.Delivering? && x in n.hub.left && x in n.peers &&
      (heard ==> Hears(n.peers[x])) && (!heard ==> !Hears(n.peers[x]) || n.peers[x].stopped)
    case Finish => n.hub.Delivering? && n.hub.left == {}
    case Snapshot(x, order) => n.hub.Idle? && x in n.peers && n.peers[x].ready && n.peers[x].phase.Waiting? &&
      Distinct(order) && (set id | id in order) == Others(n.tracks, x)
    case LoseSnapshot(x) => x in n.peers && n.peers[x].ready && n.peers[x].phase.Waiting?
    case Apply(x, _) => x in n.peers && n.peers[x].phase.Catching? && n.peers[x].phase.pending != []
  }

  /** One session's share of a hub event. */
  ghost function Delivered(p: Peer, x: SessionId, ev: Event, heard: bool, ok: bool): Peer {
    if !Passes(x, ev.track) then p
    else if heard then
      if ev.Added? then AdditionHeard(p, x, ev, ok) else RemovalHeard(p, x, ev, ok)
    else
      Skipped(p, ev)
  }

  /** A refused addition matters only after the snapshot: an earlier one is made up for by it. */
  ghost function AdditionHeard(p: Peer, x: SessionId, ev: Event, ok: bool): Peer {
    var id := ev.track.id;
    p.(egress := Heard(p.egress, x, ev, ok),
       refused := if !ok && id !in p.egress && p.phase.Catching? then p.refused + {id} else p.refused)
  }

  ghost function RemovalHeard(p: Peer, x: SessionId, ev: Event, ok: bool): Peer {
    var id := ev.track.id;
    p.(egress := Heard(p.egress, x, ev, ok),
       late := if id in Pending(p) then p.late + {id} else p.late,
       stuck := if !ok && id in p.egress then p.stuck + {id} else p.stuck)
  }

  ghost function Skipped(p: Peer, ev: Event): Peer {
    var id := ev.track.id;
    if ev.Added? then
      if p.phase.Catching? then p.(missed := p.missed + {id}) else p
    else
      if id in p.egress + Pending(p) then p.(kept := p.kept + {id}) else p
  }

  /** Applies the next track of the snapshot; one that is sent already is left alone. */
  ghost function Applied(p: Peer, ok: bool): Peer
    requires p.phase.Catching? && p.phase.pending != []
  {
    var id, rest := p.phase.pending[0], Catching(p.phase.pending[1..]);
    if ok || id in p.egress then p.(egress := p.egress + {id}, phase := rest)
    else p.(refused := p.refused + {id}, phase := rest)
  }

  ghost function Local(p: Peer, a: Action): Peer {
    match a
    case Leave(_) => p.(registered := false)
    case Stop(_) => p.(stopped := true)
    case Seize(_) => p.(lock := Busy)
    case Release(_) => p.(lock := Free)
    case Build(_) => p.(lock := Building)
    case BuildFails(_) => p.(lock := Free)
    case Open(_) => p.(lock := Built, ready := !p.stopped)
    case Attach(_) => p.(lock := Busy, attached := true)
    case Snapshot(_, order) => p.(phase := Catching(order))
    case LoseSnapshot(_) => p.(phase := Lost)
    case Apply(_, ok) => if p.phase.Catching? && p.phase.pending != [] then Applied(p, ok) else p
    case _ => p
  }

  ghost function Do(n: Net, a: Action): Net
    requires Enabled(n, a)
  {
    match a
    case Join(x) => n.(peers := n.peers[x := NewPeer()])
    case AddTrack(t) =>
      n.(tracks := n.tracks[t.id := t], seen := n.seen[t.id := t], hub := Delivering(Added(t), Registered(n)))
    case RemoveTrack(t) =>
      n.(tracks := n.tracks - {t.id}, gone := n.gone + {t.id}, hub := Delivering(Removed(t), Registered(n)))
    case Visit(x, heard, ok) =>
      n.(peers := n.peers[x := Delivered(n.peers[x], x, n.hub.ev, heard, ok)], hub := Delivering(n.hub.ev, n.hub.left - {x}))
    case Finish => n.(hub := Idle)
    case _ => n.(peers := n.peers[a.x := Local(n.peers[a.x], a)])
  }

  // The invariant

  /** The event for track `id` has not reached `x` yet. */
  ghost predicate Due(hub: Pc, x: SessionId, id: TrackId, added: bool) {
    hub.Delivering? && x in hub.left && hub.ev.Added? == added && hub.ev.track.id == id
  }

  ghost predicate HubInv(n: Net) {
    && (forall id :: id in n.seen ==> n.seen[id].id == id)
    && (forall id :: id in n.tracks ==> id in n.seen && n.seen[id] == n.tracks[id])
    && (n.hub.Delivering? ==> n.hub.left <= Registered(n) && EventInv(n.hub.ev, n.tracks, n.seen, n.gone))
  }

  ghost predicate EventInv(ev: Event, tracks: map<TrackId, Track>, seen: map<TrackId, Track>, gone: set<TrackId>) {
    var t := ev.track;
    if ev.Added? then t.id in tracks && tracks[t.id] == t
    else t.id in gone && t.id !in tracks && (t.id in seen ==> seen[t.id].info.sessionId == t.info.sessionId)
  }

  /** What holds of every session, registered or not. */
  ghost predicate PeerInv(seen: map<TrackId, Track>, x: SessionId, p: Peer) {
    && (p.ready ==> p.attached || p.lock.Built?)
    && (p.lock.Building? ==> !p.ready && !p.attached)
    && (p.lock.Built? ==> !p.attached)
    && (!p.phase.Waiting? || p.egress != {} ==> p.ready)
    && (forall id :: id in p.egress + Pending(p) ==> id in seen && Passes(x, seen[id]))
    && p.missed + p.refused + Stale(p) <= seen.Keys
    && (!p.phase.Catching? ==> p.missed + p.refused == {})
    && p.missed + p.refused !! p.egress + Pending(p)
    && (p.phase.Catching? ==> Distinct(p.phase.pending))
  }

  /** Tracks the session holds on to although they are gone. */
  ghost function Stale(p: Peer): set<TrackId> {
    p.late + p.kept + p.stuck
  }

  /** What holds of every registered session. */
  ghost predicate Tracking(tracks: map<TrackId, Track>, gone: set<TrackId>, hub: Pc, x: SessionId, p: Peer) {
    var have := p.egress + Pending(p);
    && (forall id :: id in have ==> id in Others(tracks, x) + Stale(p) || Due(hub, x, id, false))
    && (p.phase.Catching? ==>
          forall id :: id in Others(tracks, x) ==> id in have + p.missed + p.refused || Due(hub, x, id, true))
    && (forall id :: id in have + p.missed + p.refused ==> !Due(hub, x, id, true))
    && Stale(p) <= have + p.refused
    && Stale(p) <= gone - tracks.Keys
    && (forall id :: id in Stale(p) ==> !Due(hub, x, id, false))
  }

  ghost predicate InOrder(n: Net, x: SessionId, p: Peer) {
    PeerInv(n.seen, x, p) && (p.registered ==> Tracking(n.tracks, n.gone, n.hub, x, p))
  }

  ghost predicate Inv(n: Net) {
    HubInv(n) && forall x :: x in n.peers ==> InOrder(n, x, n.peers[x])
  }

  ghost predicate Init(n: Net) {
    n == Net(map[], map[], map[], {}, Idle)
  }

  ghost predicate IsLocal(a: Action) {
    !a.Join? && !a.AddTrack? && !a.RemoveTrack? && !a.Visit? && !a.Finish?
  }

  // Steps that touch one session only

  lemma LocalKeepsPeer(n: Net, a: Action)
    requires HubInv(n) && IsLocal(a) && Enabled(n, a) && PeerInv(n.seen, a.x, n.peers[a.x])
    ensures PeerInv(n.seen, a.x, Local(n.peers[a.x], a))
  {
    var p := n.peers[a.x];
    if a.Apply? {
      ApplyKeepsPeer(n.seen, a.x, p, a.ok);
    } else if a.Snapshot? {
      assert Pending(Local(p, a)) == Others(n.tracks, a.x);
    } else {
      assert Pending(Local(p, a)) <= Pending(p);
    }
  }

  lemma FirstOfDistinct(order: seq<TrackId>)
    requires order != [] && Distinct(order)
    ensures (set id | id in order) == {order[0]} + set id | id in order[1..]
    ensures order[0] !in order[1..] && Distinct(order[1..])
  {
    assert order == [order[0]] + order[1..];
  }

  /** The next track moves from pending to egress, or is refused. */
  lemma ApplyMoves(p: Peer, ok: bool)
    requires p.phase.Catching? && p.phase.pending != [] && Distinct(p.phase.pending)
    ensures var id, p' := p.phase.pending[0], Applied(p, ok);
      && p'.phase.Catching? && Distinct(p'.phase.pending)
      && Pending(p) == Pending(p') + {id} && id !in Pending(p')
      && if ok || id in p.egress then p'.egress == p.egress + {id} && p'.refused == p.refused
         else p'.egress == p.egress && p'.refused == p.refused + {id}
  {
    FirstOfDistinct(p.phase.pending);
    assert Pending(Applied(p, ok)) == set id | id in p.phase.pending[1..];
  }

  lemma ApplyKeepsPeer(seen: map<TrackId, Track>, x: SessionId, p: Peer, ok: bool)
    requires PeerInv(seen, x, p) && p.phase.Catching? && p.phase.pending != []
    ensures PeerInv(seen, x, Applied(p, ok))
  {
    ApplyMoves(p, ok);
    assert p.phase.pending[0] in Pending(p);
  }

  lemma ApplyKeepsTracking(n: Net, x: SessionId, p: Peer, ok: bool)
    requires PeerInv(n.seen, x, p) && Tracking(n.tracks, n.gone, n.hub, x, p)
    requires p.phase.Catching? && p.phase.pending != []
    ensures Tracking(n.tracks, n.gone, n.hub, x, Applied(p, ok))
  {
    ApplyMoves(p, ok);
  }

  lemma LocalKeepsTracking(n: Net, a: Action)
    requires HubInv(n) && IsLocal(a) && Enabled(n, a) && PeerInv(n.seen, a.x, n.peers[a.x])
    requires Tracking(n.tracks, n.gone, n.hub, a.x, n.peers[a.x])
    ensures Tracking(n.tracks, n.gone, n.hub, a.x, Local(n.peers[a.x], a))
  {
    var p := n.peers[a.x];
    if a.Apply? {
      ApplyKeepsTracking(n, a.x, p, a.ok);
    } else if a.Snapshot? {
      SnapshotKeepsTracking(n, a.x, a.order);
    } else {
      assert Pending(Local(p, a)) == Pending(p);
    }
  }

  lemma SnapshotKeepsTracking(n: Net, x: SessionId, order: seq<TrackId>)
    requires Enabled(n, Snapshot(x, order)) && PeerInv(n.seen, x, n.peers[x])
    requires Tracking(n.tracks, n.gone, Idle, x, n.peers[x])
    ensures Tracking(n.tracks, n.gone, Idle, x, n.peers[x].(phase := Catching(order)))
  {
    var p := n.peers[x];
    assert Pending(p.(phase := Catching(order))) == Others(n.tracks, x) && Pending(p) == {};
  }

  // Visits

  lemma AdditionKeepsPeer(seen: map<TrackId, Track>, x: SessionId, p: Peer, t: Track, heard: bool, ok: bool)
    requires PeerInv(seen, x, p) && Passes(x, t) && t.id in seen && seen[t.id] == t && (heard ==> p.ready)
    requires t.id !in p.egress + Pending(p) + p.missed + p.refused
    ensures PeerInv(seen, x, if heard then AdditionHeard(p, x, Added(t), ok) else Skipped(p, Added(t)))
  {
    var p' := if heard then AdditionHeard(p, x, Added(t), ok) else Skipped(p, Added(t));
    assert Pending(p') == Pending(p) && Stale(p') == Stale(p);
  }

  lemma RemovalKeepsPeer(seen: map<TrackId, Track>, x: SessionId, p: Peer, t: Track, heard: bool, ok: bool)
    requires PeerInv(seen, x, p)
    ensures PeerInv(seen, x, if heard then RemovalHeard(p, x, Removed(t), ok) else Skipped(p, Removed(t)))
  {
    var p' := if heard then RemovalHeard(p, x, Removed(t), ok) else Skipped(p, Removed(t));
    assert Pending(p') == Pending(p) && p'.egress <= p.egress;
    assert Stale(p') <= Stale(p) + p.egress + Pending(p);
  }

  lemma VisitKeepsPeer(n: Net, x: SessionId, heard: bool, ok: bool)
    requires HubInv(n) && Enabled(n, Visit(x, heard, ok)) && PeerInv(n.seen, x, n.peers[x])
    requires Tracking(n.tracks, n.gone, n.hub, x, n.peers[x])
    ensures PeerInv(n.seen, x, Delivered(n.peers[x], x, n.hub.ev, heard, ok))
  {
    var t := n.hub.ev.track;
    assert Due(n.hub, x, t.id, n.hub.ev.Added?);
    if Passes(x, t) && n.hub.ev.Added? {
      AdditionKeepsPeer(n.seen, x, n.peers[x], t, heard, ok);
    } else if Passes(x, t) {
      RemovalKeepsPeer(n.seen, x, n.peers[x], t, heard, ok);
    }
  }

  lemma VisitKeepsTracking(n: Net, x: SessionId, heard: bool, ok: bool)
    requires HubInv(n) && Enabled(n, Visit(x, heard, ok)) && PeerInv(n.seen, x, n.peers[x])
    requires Tracking(n.tracks, n.gone, n.hub, x, n.peers[x])
    ensures Tracking(n.tracks, n.gone, Delivering(n.hub.ev, n.hub.left - {x}), x,
                     Delivered(n.peers[x], x, n.hub.ev, heard, ok))
  {
    var p, ev := n.peers[x], n.hub.ev;
    assert Due(n.hub, x, ev.track.id, ev.Added?);
    if !Passes(x, ev.track) {
      OwnTrackKeepsTracking(n, x);
    } else if ev.Added? {
      if heard {
        AdditionHeardKeepsTracking(n.tracks, n.gone, n.hub, x, p, ev.track, ok);
      } else {
        AdditionSkippedKeepsTracking(n.tracks, n.gone, n.hub, x, p, ev.track);
      }
    } else if heard {
      RemovalHeardKeepsTracking(n.tracks, n.gone, n.hub, x, p, ev.track, ok);
    } else {
      RemovalSkippedKeepsTracking(n.tracks, n.gone, n.hub, x, p, ev.track);
    }
  }

  lemma OwnTrackKeepsTracking(n: Net, x: SessionId)
    requires HubInv(n) && n.hub.Delivering? && x in n.hub.left && x in n.peers && !Passes(x, n.hub.ev.track)
    requires PeerInv(n.seen, x, n.peers[x]) && Tracking(n.tracks, n.gone, n.hub, x, n.peers[x])
    ensures Tracking(n.tracks, n.gone, Delivering(n.hub.ev, n.hub.left - {x}), x, n.peers[x])
  {
    var id := n.hub.ev.track.id;
    assert id !in Others(n.tracks, x);
    assert id !in n.peers[x].egress + Pending(n.peers[x]);
  }

  /** The event for `t` is the one due at `x`. */
  ghost predicate Reaches(hub: Pc, x: SessionId, ev: Event) {
    hub.Delivering? && x in hub.left && hub.ev == ev && Passes(x, ev.track)
  }

  ghost function Past(hub: Pc, x: SessionId): Pc
    requires hub.Delivering?
  {
    Delivering(hub.ev, hub.left - {x})
  }

  lemma AdditionHeardKeepsTracking(tracks: map<TrackId, Track>, gone: set<TrackId>, hub: Pc, x: SessionId, p: Peer, t: Track, ok: bool)
    requires Tracking(tracks, gone, hub, x, p) && Reaches(hub, x, Added(t))
    requires t.id in tracks && tracks[t.id] == t
    ensures Tracking(tracks, gone, Past(hub, x), x, AdditionHeard(p, x, Added(t), ok))
  {
    assert Due(hub, x, t.id, true);
    var p' := AdditionHeard(p, x, Added(t), ok);
    assert Pending(p') == Pending(p) && Stale(p') == Stale(p) && p'.missed == p.missed;
    assert p'.egress == if ok then p.egress + {t.id} else p.egress;
    assert t.id in Others(tracks, x);
  }

  lemma AdditionSkippedKeepsTracking(tracks: map<TrackId, Track>, gone: set<TrackId>, hub: Pc, x: SessionId, p: Peer, t: Track)
    requires Tracking(tracks, gone, hub, x, p) && Reaches(hub, x, Added(t))
    requires t.id in tracks && tracks[t.id] == t
    ensures Tracking(tracks, gone, Past(hub, x), x, Skipped(p, Added(t)))
  {
    assert Due(hub, x, t.id, true);
    var p' := Skipped(p, Added(t));
    assert Pending(p') == Pending(p) && Stale(p') == Stale(p);
  }

  lemma RemovalHeardKeepsTracking(tracks: map<TrackId, Track>, gone: set<TrackId>, hub: Pc, x: SessionId, p: Peer, t: Track, ok: bool)
    requires Tracking(tracks, gone, hub, x, p) && Reaches(hub, x, Removed(t))
    requires t.id !in tracks && t.id in gone
    ensures Tracking(tracks, gone, Past(hub, x), x, RemovalHeard(p, x, Removed(t), ok))
  {
    assert Due(hub, x, t.id, false);
    var p' := RemovalHeard(p, x, Removed(t), ok);
    assert Pending(p') == Pending(p) && Stale(p) <= Stale(p') <= Stale(p) + {t.id};
    assert p'.egress == if ok then p.egress - {t.id} else p.egress;
    assert t.id in p'.egress + Pending(p') <==> t.id in Stale(p');
  }

  lemma RemovalSkippedKeepsTracking(tracks: map<TrackId, Track>, gone: set<TrackId>, hub: Pc, x: SessionId, p: Peer, t: Track)
    requires Tracking(tracks, gone, hub, x, p) && Reaches(hub, x, Removed(t))
    requires t.id !in tracks && t.id in gone
    ensures Tracking(tracks, gone, Past(hub, x), x, Skipped(p, Removed(t)))
  {
    assert Due(hub, x, t.id, false);
    var p' := Skipped(p, Removed(t));
    assert Pending(p') == Pending(p) && Stale(p) <= Stale(p') <= Stale(p) + {t.id};
  }

  lemma AdditionStarts(tracks: map<TrackId, Track>, gone: set<TrackId>, x: SessionId, p: Peer, t: Track, left: set<SessionId>)
    requires Tracking(tracks, gone, Idle, x, p) && x in left
    requires t.id !in tracks && t.id !in p.egress + Pending(p) + p.missed + p.refused + Stale(p)
    ensures Tracking(tracks[t.id := t], gone, Delivering(Added(t), left), x, p)
  {
    assert forall id :: id != t.id ==> (id in Others(tracks[t.id := t], x) <==> id in Others(tracks, x));
  }

  lemma RemovalStarts(tracks: map<TrackId, Track>, gone: set<TrackId>, x: SessionId, p: Peer, t: Track, left: set<SessionId>)
    requires Tracking(tracks, gone, Idle, x, p) && x in left && t.id !in gone
    ensures Tracking(tracks - {t.id}, gone + {t.id}, Delivering(Removed(t), left), x, p)
  {
    assert t.id !in Stale(p);
    assert forall id :: id != t.id ==> (id in Others(tracks - {t.id}, x) <==> id in Others(tracks, x));
  }

  lemma AddTrackKeepsTracking(n: Net, t: Track, x: SessionId)
    requires HubInv(n) && Enabled(n, AddTrack(t)) && x in n.peers && n.peers[x].registered
    requires PeerInv(n.seen, x, n.peers[x]) && Tracking(n.tracks, n.gone, Idle, x, n.peers[x])
    ensures Tracking(n.tracks[t.id := t], n.gone, Delivering(Added(t), Registered(n)), x, n.peers[x])
  {
    AdditionStarts(n.tracks, n.gone, x, n.peers[x], t, Registered(n));
  }

  lemma RemoveTrackKeepsTracking(n: Net, t: Track, x: SessionId)
    requires Enabled(n, RemoveTrack(t)) && x in n.peers && n.peers[x].registered
    requires Tracking(n.tracks, n.gone, Idle, x, n.peers[x])
    ensures Tracking(n.tracks - {t.id}, n.gone + {t.id}, Delivering(Removed(t), Registered(n)), x, n.peers[x])
  {
    RemovalStarts(n.tracks, n.gone, x, n.peers[x], t, Registered(n));
  }

  /** A change of the hub's position that leaves what is due at `x` alone. */
  lemma SameDueKeepsTracking(n: Net, hub: Pc, x: SessionId, p: Peer)
    requires Tracking(n.tracks, n.gone, n.hub, x, p)
    requires forall id, added: bool :: Due(hub, x, id, added) <==> Due(n.hub, x, id, added)
    ensures Tracking(n.tracks, n.gone, hub, x, p)
  {
  }

  lemma HubKeepsInv(n: Net, a: Action)
    requires HubInv(n) && Enabled(n, a)
    ensures HubInv(Do(n, a))
  {
    if a.AddTrack? {
      assert EventInv(Added(a.t), Do(n, a).tracks, Do(n, a).seen, n.gone);
    } else if a.RemoveTrack? {
      assert EventInv(Removed(a.t), Do(n, a).tracks, n.seen, Do(n, a).gone);
    } else {
      LeftStaysRegistered(n, a);
    }
  }

  lemma LeftStaysRegistered(n: Net, a: Action)
    requires HubInv(n) && Enabled(n, a) && !a.AddTrack? && !a.RemoveTrack?
    ensures var n' := Do(n, a);
      && (n'.hub.Delivering? ==> n.hub.Delivering? && n'.hub.ev == n.hub.ev && n'.hub.left <= Registered(n'))
      && n'.seen == n.seen && n'.tracks == n.tracks && n'.gone == n.gone
  {
    var n' := Do(n, a);
    if n'.hub.Delivering? {
      forall x | x in n'.hub.left ensures x in Registered(n') {
        assert x in Registered(n);
      }
    }
  }

  /** Steps of the hub that touch no session, seen from one session. */
  lemma HubStepKeepsPeer(n: Net, a: Action, x: SessionId)
    requires HubInv(n) && Enabled(n, a) && (a.AddTrack? || a.RemoveTrack? || a.Finish?)
    requires x in n.peers && InOrder(n, x, n.peers[x])
    ensures InOrder(Do(n, a), x, n.peers[x])
  {
    var p := n.peers[x];
    match a {
      case AddTrack(t) =>
        assert PeerInv(Do(n, a).seen, x, p);
        if p.registered {
          AddTrackKeepsTracking(n, t, x);
        }
      case RemoveTrack(t) =>
        if p.registered {
          RemoveTrackKeepsTracking(n, t, x);
        }
      case Finish =>
        if p.registered {
          SameDueKeepsTracking(n, Idle, x, p);
        }
    }
  }

  lemma VisitKeepsInv(n: Net, y: SessionId, heard: bool, ok: bool, x: SessionId)
    requires HubInv(n) && Enabled(n, Visit(y, heard, ok)) && x in n.peers && InOrder(n, x, n.peers[x])
    ensures var n' := Do(n, Visit(y, heard, ok)); x in n'.peers && InOrder(n', x, n'.peers[x])
  {
    if y == x {
      assert x in Registered(n);
      VisitKeepsPeer(n, x, heard, ok);
      VisitKeepsTracking(n, x, heard, ok);
    } else if n.peers[x].registered {
      SameDueKeepsTracking(n, Do(n, Visit(y, heard, ok)).hub, x, n.peers[x]);
    }
  }

  lemma LocalKeepsInv(n: Net, a: Action, x: SessionId)
    requires HubInv(n) && IsLocal(a) && Enabled(n, a) && x in n.peers && InOrder(n, x, n.peers[x])
    ensures x in Do(n, a).peers && InOrder(Do(n, a), x, Do(n, a).peers[x])
  {
    if a.x == x {
      LocalKeepsPeer(n, a);
      if n.peers[x].registered {
        LocalKeepsTracking(n, a);
      }
    }
  }

  lemma PeerKeepsInv(n: Net, a: Action, x: SessionId)
    requires HubInv(n) && Enabled(n, a) && x in n.peers && InOrder(n, x, n.peers[x])
    ensures x in Do(n, a).peers && InOrder(Do(n, a), x, Do(n, a).peers[x])
  {
    if IsLocal(a) {
      LocalKeepsInv(n, a, x);
    } else if a.Visit? {
      VisitKeepsInv(n, a.x, a.heard, a.ok, x);
    } else if !a.Join? {
      HubStepKeepsPeer(n, a, x);
    }
  }

  lemma StepKeepsInv(n: Net, a: Action)
    requires Inv(n) && Enabled(n, a)
    ensures Inv(Do(n, a))
  {
    var n' := Do(n, a);
    HubKeepsInv(n, a);
    forall x | x in n'.peers ensures InOrder(n', x, n'.peers[x]) {
      if x in n.peers {
        assert InOrder(n, x, n.peers[x]);
        PeerKeepsInv(n, a, x);
      } else {
        assert n'.peers[x] == NewPeer();
      }
    }
  }
}
