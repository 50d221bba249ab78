/** Conservation of the track counters the hub keeps for the metric graph. */
module Conservation {
  import opened Wrappers
  import opened TrackInfo
  import opened NodeGraph
  import opened Hub
  import opened Runs

  ghost predicate IsMain(t: Track) {
    t.info.purpose == PURPOSE_MAIN
  }

  /** The hub tracks that satisfy `p`. */
  ghost function Where(tracks: map<TrackId, Track>, p: Track -> bool): set<TrackId> {
    set id | id in tracks && p(tracks[id])
  }

  ghost function OfPurpose(main: bool): Track -> bool {
    (t: Track) => IsMain(t) == main
  }

  ghost function OfSession(session: SessionId, main: bool): Track -> bool {
    (t: Track) => t.info.sessionId == session && IsMain(t) == main
  }

  /** The hub tracks of one purpose; all sessions, or one. */
  ghost function Class(tracks: map<TrackId, Track>, main: bool): set<TrackId> {
    Where(tracks, OfPurpose(main))
  }

  ghost function ClassOf(tracks: map<TrackId, Track>, session: SessionId, main: bool): set<TrackId> {
    Where(tracks, OfSession(session, main))
  }

  ghost function Sources(tracks: map<TrackId, Track>): set<SessionId> {
    set id | id in tracks :: tracks[id].info.sessionId
  }

  /** A node counts exactly the live guest and main tracks of its session. */
  ghost predicate Counts(node: GraphNode, tracks: map<TrackId, Track>, session: SessionId) {
    node.tracks == |ClassOf(tracks, session, false)| && node.mainTracks == |ClassOf(tracks, session, true)|
  }

  /** Every counter is exact, a session has a node exactly when it has tracks, and the sender has the main tracks. */
  ghost predicate Exact(h: HubTable) {
    && HubExact(h)
    && h.nodes.Keys == Sources(h.tracks)
    && (forall s :: s in h.nodes ==> Counts(h.nodes[s], h.tracks, s))
  }

  ghost predicate HubExact(h: HubTable) {
    && h.hubNode.tracks == |Class(h.tracks, false)| && h.hubNode.mainTracks == |Class(h.tracks, true)|
    && h.live == Class(h.tracks, true)
  }

  /** A new track joins exactly the classes it satisfies. */
  lemma EnterWhere(tracks: map<TrackId, Track>, t: Track, p: Track -> bool)
    requires t.id !in tracks
    ensures Where(tracks[t.id := t], p) == if p(t) then Where(tracks, p) + {t.id} else Where(tracks, p)
    ensures |Where(tracks[t.id := t], p)| == |Where(tracks, p)| + if p(t) then 1 else 0
  {
    assert t.id !in Where(tracks, p);
    if p(t) {
      assert Where(tracks[t.id := t], p) == Where(tracks, p) + {t.id};
    } else {
      assert Where(tracks[t.id := t], p) == Where(tracks, p);
    }
  }

  /** A withdrawn track leaves exactly the classes it satisfied. */
  lemma WithdrawWhere(tracks: map<TrackId, Track>, id: TrackId, p: Track -> bool)
    requires id in tracks
    ensures Where(tracks - {id}, p) == Where(tracks, p) - {id}
    ensures id in Where(tracks, p) <==> p(tracks[id])
    ensures |Where(tracks - {id}, p)| == |Where(tracks, p)| - if p(tracks[id]) then 1 else 0
  {
    assert Where(tracks - {id}, p) == Where(tracks, p) - {id};
  }

  lemma EnterSources(tracks: map<TrackId, Track>, t: Track)
    requires t.id !in tracks
    ensures Sources(tracks[t.id := t]) == Sources(tracks) + {t.info.sessionId}
  {
    var after := tracks[t.id := t];
    forall s | s in Sources(tracks) + {t.info.sessionId} ensures s in Sources(after) {
      if s == t.info.sessionId {
        assert after[t.id].info.sessionId == s;
      } else {
        var id :| id in tracks && tracks[id].info.sessionId == s;
        assert after[id].info.sessionId == s;
      }
    }
  }

  lemma EnteredNode(h: HubTable, t: Track, s: SessionId)
    requires if s in h.nodes then Counts(h.nodes[s], h.tracks, s) else s !in Sources(h.tracks)
    requires t.id !in h.tracks && s in Entered(h, t, true).nodes
    ensures Counts(Entered(h, t, true).nodes[s], Entered(h, t, true).tracks, s)
  {
    EnterWhere(h.tracks, t, OfSession(s, false));
    EnterWhere(h.tracks, t, OfSession(s, true));
    if s !in h.nodes {
      NoTracks(h.tracks, s);
    }
  }

  /** The hub's own counters move with the two classes. */
  lemma EnteredHubNode(h: HubTable, t: Track)
    requires HubExact(h) && t.id !in h.tracks
    ensures HubExact(Entered(h, t, true))
  {
    EnterWhere(h.tracks, t, OfPurpose(false));
    EnterWhere(h.tracks, t, OfPurpose(true));
  }

  lemma EnteredStaysExact(h: HubTable, t: Track)
    requires Exact(h) && t.id !in h.tracks
    ensures Exact(Entered(h, t, true))
  {
    var h' := Entered(h, t, true);
    EnteredHubNode(h, t);
    EnterSources(h.tracks, t);
    assert h'.nodes.Keys == h.nodes.Keys + {t.info.sessionId};
    forall s | s in h'.nodes ensures Counts(h'.nodes[s], h'.tracks, s) {
      EnteredNode(h, t, s);
    }
  }

  /** Adding a track keeps the counters exact exactly when its id is new. */
  lemma EnteredIsExactIff(h: HubTable, t: Track)
    requires Exact(h)
    ensures Exact(Entered(h, t, true)) <==> t.id !in h.tracks
  {
    if t.id !in h.tracks {
      EnteredStaysExact(h, t);
    } else {
      var h' := Entered(h, t, true);
      TwoClasses(h.tracks);
      TwoClasses(h'.tracks);
      assert h'.tracks.Keys == h.tracks.Keys;
      assert h'.hubNode.tracks + h'.hubNode.mainTracks == |h.tracks| + 1;
    }
  }

  lemma NoTracks(tracks: map<TrackId, Track>, s: SessionId)
    requires s !in Sources(tracks)
    ensures ClassOf(tracks, s, false) == {} && ClassOf(tracks, s, true) == {}
  {
  }

  lemma TwoClasses(tracks: map<TrackId, Track>)
    ensures |Class(tracks, false)| + |Class(tracks, true)| == |tracks|
  {
    assert Class(tracks, false) + Class(tracks, true) == tracks.Keys;
    assert |Class(tracks, false) + Class(tracks, true)| == |Class(tracks, false)| + |Class(tracks, true)|;
  }

  /** The removal event names a track the hub holds, with the session and purpose it was added with. */
  ghost predicate Matches(h: HubTable, t: Track) {
    t.id in h.tracks && h.tracks[t.id].info.sessionId == t.info.sessionId && IsMain(h.tracks[t.id]) == IsMain(t)
  }

  lemma WithdrawSources(tracks: map<TrackId, Track>, id: TrackId)
    requires id in tracks
    ensures var s := tracks[id].info.sessionId;
      Sources(tracks - {id}) ==
        if ClassOf(tracks - {id}, s, false) == {} && ClassOf(tracks - {id}, s, true) == {} then Sources(tracks) - {s} else Sources(tracks)
  {
    var after, s := tracks - {id}, tracks[id].info.sessionId;
    assert s in Sources(tracks);
    forall u | u in Sources(tracks) && u != s ensures u in Sources(after) {
      var k :| k in tracks && tracks[k].info.sessionId == u;
      assert after[k].info.sessionId == u;
    }
    if s in Sources(after) {
      var k :| k in after && after[k].info.sessionId == s;
      assert k in ClassOf(after, s, IsMain(after[k]));
    } else {
      NoTracks(after, s);
    }
  }

  lemma WithdrawnNode(h: HubTable, t: Track, s: SessionId)
    requires Matches(h, t) && t.info.sessionId in h.nodes
    requires s in h.nodes ==> Counts(h.nodes[s], h.tracks, s)
    ensures s in Withdrawn(h, t, true).nodes ==> Counts(Withdrawn(h, t, true).nodes[s], Withdrawn(h, t, true).tracks, s)
    ensures s == t.info.sessionId ==>
      && s in h.nodes
      && (s !in Withdrawn(h, t, true).nodes <==>
            ClassOf(h.tracks - {t.id}, s, false) == {} && ClassOf(h.tracks - {t.id}, s, true) == {})
  {
    WithdrawWhere(h.tracks, t.id, OfSession(s, false));
    WithdrawWhere(h.tracks, t.id, OfSession(s, true));
  }

  lemma WithdrawnHubNode(h: HubTable, t: Track)
    requires HubExact(h) && Matches(h, t)
    ensures HubExact(Withdrawn(h, t, true))
  {
    WithdrawWhere(h.tracks, t.id, OfPurpose(!IsMain(t)));
    WithdrawWhere(h.tracks, t.id, OfPurpose(IsMain(t)));
    var h' := Withdrawn(h, t, true);
    assert h'.hubNode == if IsMain(t) then h.hubNode.(mainTracks := h.hubNode.mainTracks - 1)
                         else h.hubNode.(tracks := h.hubNode.tracks - 1);
    if IsMain(t) {
      assert h'.live == Class(h'.tracks, true);
    } else {
      assert h'.live == Class(h'.tracks, true);
    }
  }

  lemma WithdrawnSessions(h: HubTable, t: Track)
    requires Matches(h, t) && h.nodes.Keys == Sources(h.tracks)
    requires t.info.sessionId in h.nodes && Counts(h.nodes[t.info.sessionId], h.tracks, t.info.sessionId)
    ensures Withdrawn(h, t, true).nodes.Keys == Sources(h.tracks - {t.id})
  {
    var h', s := Withdrawn(h, t, true), t.info.sessionId;
    WithdrawSources(h.tracks, t.id);
    WithdrawnNode(h, t, s);
    if s in h'.nodes {
      assert h'.nodes.Keys == h.nodes.Keys;
    } else {
      assert h'.nodes.Keys == h.nodes.Keys - {s};
    }
  }

  lemma WithdrawnStaysExact(h: HubTable, t: Track)
    requires Exact(h) && Matches(h, t)
    ensures Exact(Withdrawn(h, t, true))
  {
    var h' := Withdrawn(h, t, true);
    WithdrawnHubNode(h, t);
    assert t.info.sessionId in Sources(h.tracks);
    WithdrawnSessions(h, t);
    forall s | s in h'.nodes ensures Counts(h'.nodes[s], h'.tracks, s) {
      WithdrawnNode(h, t, s);
    }
  }

  /** The session whose track really went is still counted as before. */
  lemma WrongSessionShows(h: HubTable, t: Track)
    requires Exact(h) && t.id in h.tracks && h.tracks[t.id].info.sessionId != t.info.sessionId
    ensures !Exact(Withdrawn(h, t, true))
  {
    var h', s, main := Withdrawn(h, t, true), h.tracks[t.id].info.sessionId, IsMain(h.tracks[t.id]);
    assert s in Sources(h.tracks) && s in h'.nodes && h'.nodes[s] == h.nodes[s];
    assert Counts(h.nodes[s], h.tracks, s);
    WithdrawWhere(h.tracks, t.id, OfSession(s, main));
    assert !Counts(h'.nodes[s], h'.tracks, s);
  }

  /** Removing a track keeps the counters exact exactly when the event matches the track the hub holds. */
  lemma WithdrawnIsExactIff(h: HubTable, t: Track)
    requires Exact(h)
    ensures Exact(Withdrawn(h, t, true)) <==> Matches(h, t)
  {
    var h' := Withdrawn(h, t, true);
    if Matches(h, t) {
      WithdrawnStaysExact(h, t);
    } else if t.id !in h.tracks {
      assert h'.tracks == h.tracks;
    } else if h.tracks[t.id].info.sessionId != t.info.sessionId {
      WrongSessionShows(h, t);
    } else {
      WithdrawWhere(h.tracks, t.id, OfPurpose(IsMain(t)));
    }
  }

  // The sum over all nodes

  ghost function Pick<T>(s: set<T>): T
    requires s != {}
  {
    var x :| x in s; x
  }

  ghost function Total(nodes: map<SessionId, GraphNode>, keys: set<SessionId>): int
    requires keys <= nodes.Keys
  {
    if keys == {} then 0
    else var s := Pick(keys); nodes[s].tracks + nodes[s].mainTracks + Total(nodes, keys - {s})
  }

  ghost function TracksOf(tracks: map<TrackId, Track>, keys: set<SessionId>): set<TrackId> {
    set id | id in tracks && tracks[id].info.sessionId in keys
  }

  /** The tracks of a set of sessions, split into those of one of them and the rest. */
  lemma SplitTracks(tracks: map<TrackId, Track>, keys: set<SessionId>, s: SessionId)
    requires s in keys
    ensures |TracksOf(tracks, keys)| ==
            |ClassOf(tracks, s, false)| + |ClassOf(tracks, s, true)| + |TracksOf(tracks, keys - {s})|
  {
    var g, m, rest := ClassOf(tracks, s, false), ClassOf(tracks, s, true), TracksOf(tracks, keys - {s});
    forall id ensures id in TracksOf(tracks, keys) <==> id in g + m + rest {
      if id in tracks {
        assert OfSession(s, IsMain(tracks[id]))(tracks[id]) <==> tracks[id].info.sessionId == s;
      }
    }
    assert TracksOf(tracks, keys) == g + m + rest;
    assert g !! m && (g + m) !! rest;
  }

  lemma {:induction false} TotalCountsTracks(h: HubTable, keys: set<SessionId>)
    requires Exact(h) && keys <= h.nodes.Keys
    ensures Total(h.nodes, keys) == |TracksOf(h.tracks, keys)|
  {
    if keys == {} {
      assert TracksOf(h.tracks, keys) == {};
    } else {
      var s := Pick(keys);
      TotalCountsTracks(h, keys - {s});
      SplitTracks(h.tracks, keys, s);
      assert Counts(h.nodes[s], h.tracks, s);
    }
  }

  /** Conservation: the counts of all ingress nodes add up to the hub's count, which is the size of the track map;
      no count is negative, and no node is empty. */
  lemma CountersAreConserved(h: HubTable)
    requires Exact(h)
    ensures Total(h.nodes, h.nodes.Keys) == h.hubNode.tracks + h.hubNode.mainTracks == |h.tracks|
    ensures forall s :: s in h.nodes ==>
              h.nodes[s].tracks >= 0 && h.nodes[s].mainTracks >= 0 && h.nodes[s].tracks + h.nodes[s].mainTracks > 0
  {
    TotalCountsTracks(h, h.nodes.Keys);
    TwoClasses(h.tracks);
    AllTracks(h);
    forall s | s in h.nodes ensures h.nodes[s].tracks >= 0 && h.nodes[s].mainTracks >= 0 && h.nodes[s].tracks + h.nodes[s].mainTracks > 0 {
      NodeIsNotEmpty(h.nodes[s], h.tracks, s);
    }
  }

  lemma NodeIsNotEmpty(node: GraphNode, tracks: map<TrackId, Track>, s: SessionId)
    requires Counts(node, tracks, s) && s in Sources(tracks)
    ensures node.tracks >= 0 && node.mainTracks >= 0 && node.tracks + node.mainTracks > 0
  {
    var id :| id in tracks && tracks[id].info.sessionId == s;
    assert id in ClassOf(tracks, s, IsMain(tracks[id]));
  }

  lemma AllTracks(h: HubTable)
    requires h.nodes.Keys == Sources(h.tracks)
    ensures TracksOf(h.tracks, h.nodes.Keys) == h.tracks.Keys
  {
    forall id | id in h.tracks ensures id in TracksOf(h.tracks, h.nodes.Keys) {
      assert h.tracks[id].info.sessionId in Sources(h.tracks);
    }
  }

  // Whole runs of hub events

  ghost function AfterEvent(h: HubTable, ev: Event): HubTable {
    if ev.Added? then Entered(h, ev.track, true) else Withdrawn(h, ev.track, true)
  }

  /** A track is added while its id is unused, or removed while it is held, with the same session and purpose. */
  ghost predicate Fits(h: HubTable, ev: Event) {
    if ev.Added? then ev.track.id !in h.tracks else Matches(h, ev.track)
  }

  lemma EventIsExactIff(h: HubTable, ev: Event)
    requires Exact(h)
    ensures Exact(AfterEvent(h, ev)) <==> Fits(h, ev)
  {
    if ev.Added? {
      EnteredIsExactIff(h, ev.track);
    } else {
      WithdrawnIsExactIff(h, ev.track);
    }
  }

  /** Over a whole run the counters are exact at every point if and only if every event fits. */
  lemma CountersStayExactIff(h: HubTable, evs: seq<Event>)
    requires Exact(h)
    ensures AllFit(AfterEvent, Fits, h, evs) <==> forall n :: 0 <= n <= |evs| ==> Exact(After(AfterEvent, h, evs[..n]))
  {
    forall h, ev | Exact(h) ensures Exact(AfterEvent(h, ev)) <==> Fits(h, ev) {
      EventIsExactIff(h, ev);
    }
    AlwaysGoodIff(AfterEvent, Fits, Exact, h, evs);
  }

  // Events out of order

  /** How far the hub's count is off the number of its tracks. */
  ghost function Drift(h: HubTable): int {
    h.hubNode.tracks + h.hubNode.mainTracks - |h.tracks|
  }

  /** The event adds an unused id or removes a held one. */
  ghost predicate Counted(h: HubTable, ev: Event) {
    ev.Added? <==> ev.track.id !in h.tracks
  }

  lemma DriftStays(h: HubTable, ev: Event)
    requires Counted(h, ev)
    ensures Drift(AfterEvent(h, ev)) == Drift(h)
  {
    if ev.Removed? {
      assert (h.tracks - {ev.track.id}).Keys == h.tracks.Keys - {ev.track.id};
    } else {
      assert h.tracks[ev.track.id := ev.track].Keys == h.tracks.Keys + {ev.track.id};
    }
  }

  lemma ExactHasNoDrift(h: HubTable)
    requires HubExact(h)
    ensures Drift(h) == 0
  {
    TwoClasses(h.tracks);
  }

  lemma {:induction false} DeadTrackStays(h: HubTable, id: TrackId, evs: seq<Event>)
    requires id in h.tracks && AllFit(AfterEvent, Counted, h, evs) && forall i :: 0 <= i < |evs| ==> evs[i].track.id != id
    ensures id in After(AfterEvent, h, evs).tracks && Drift(After(AfterEvent, h, evs)) == Drift(h)
    decreases |evs|
  {
    if evs != [] {
      DriftStays(h, evs[0]);
      assert id in AfterEvent(h, evs[0]).tracks;
      DeadTrackStays(AfterEvent(h, evs[0]), id, evs[1..]);
    }
  }

  lemma EarlyRemovalDrifts(h: HubTable, t: Track)
    requires t.id !in h.tracks
    ensures var early := AfterEvent(h, Removed(t)); early.tracks == h.tracks && Drift(early) == Drift(h) - 1
  {
    assert h.tracks - {t.id} == h.tracks;
  }

  lemma RemovedThenAdded(h: HubTable, t: Track)
    requires HubExact(h) && t.id !in h.tracks
    ensures var dead := AfterEvent(AfterEvent(h, Removed(t)), Added(t));
      t.id in dead.tracks && Drift(dead) == -1
  {
    ExactHasNoDrift(h);
    EarlyRemovalDrifts(h, t);
    DriftStays(AfterEvent(h, Removed(t)), Added(t));
  }

  /** The receiver may dispatch a track's removal before its addition. Then the hub keeps the dead track for good: over
      every run that adds and removes other tracks only, the hub holds it and counts one track less than it holds. */
  lemma RemovalBeforeAddition(h: HubTable, t: Track, evs: seq<Event>)
    requires Exact(h) && t.id !in h.tracks && forall i :: 0 <= i < |evs| ==> evs[i].track.id != t.id
    requires AllFit(AfterEvent, Counted, AfterEvent(AfterEvent(h, Removed(t)), Added(t)), evs)
    ensures var end := After(AfterEvent, AfterEvent(AfterEvent(h, Removed(t)), Added(t)), evs);
      t.id in end.tracks && Drift(end) == -1 && !Exact(end)
  {
    var dead := AfterEvent(AfterEvent(h, Removed(t)), Added(t));
    RemovedThenAdded(h, t);
    DeadTrackStays(dead, t.id, evs);
    if HubExact(After(AfterEvent, dead, evs)) {
      ExactHasNoDrift(After(AfterEvent, dead, evs));
    }
  }
}
