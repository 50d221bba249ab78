/** The hub of one lobby (internal/lobby/sessions/hub.go) and the catch-up of a new egress endpoint
    (internal/rtp/establish_endpoint.go). */
module Hub {
  import opened Wrappers
  import opened TrackInfo
  import opened InfoRepository
  import opened NodeGraph
  import opened Endpoint
  import opened Sessions

  datatype Event = Added(track: Track) | Removed(track: Track)

  /** filterForSession: a session never receives its own tracks. */
  predicate Passes(session: SessionId, track: Track) {
    session != track.info.sessionId
  }

  /** What an event that reaches `session` makes of the tracks its egress endpoint sends; `ok` tells whether the
      peer connection agrees. */
  function Heard(egress: set<TrackId>, session: SessionId, ev: Event, ok: bool): set<TrackId> {
    if !ok || !Passes(session, ev.track) then egress
    else if ev.Added? then egress + {ev.track.id}
    else egress - {ev.track.id}
  }

  /** The hub tracks a snapshot for `session` holds. */
  function Others(tracks: map<TrackId, Track>, session: SessionId): set<TrackId> {
    set id | id in tracks && Passes(session, tracks[id])
  }

  /** The part of the hub that add and remove events update before they are fanned out. */
  datatype HubTable = HubTable(
    tracks: map<TrackId, Track>,
    nodes: map<SessionId, GraphNode>,
    hubNode: GraphNode,
    live: set<TrackId>)

  function Entered(h: HubTable, t: Track, on: bool): HubTable {
    var purpose := PurposeText(t.info.purpose);
    HubTable(h.tracks[t.id := t],
          Increased(h.nodes, t.info.sessionId, purpose, on),
          GraphNodeUpdateInc(h.hubNode, purpose, on),
          if t.info.purpose == PURPOSE_MAIN then h.live + {t.id} else h.live)
  }

  function Withdrawn(h: HubTable, t: Track, on: bool): HubTable {
    var purpose := PurposeText(t.info.purpose);
    HubTable(h.tracks - {t.id},
          Decreased(h.nodes, t.info.sessionId, purpose, on),
          GraphNodeUpdateDec(h.hubNode, purpose, on),
          if t.info.purpose == PURPOSE_MAIN then h.live - {t.id} else h.live)
  }

  /** How the peer connection of one session answers the call an event leads to. */
  datatype Answer = Answer(place: Placement, mid: string, ok: bool)

  ghost predicate Agrees(ev: Event, answer: Answer) {
    if ev.Added? then !answer.place.Refused? else answer.ok
  }

  /** How the senders and records of `session` change when an event is fanned out to it, or skips it: not at all if
      it skips the session or the filter stops it. */
  ghost predicate Followed(before: Ledger, after: Ledger, session: SessionId, ev: Event, answer: Answer, heard: bool) {
    var t := ev.track;
    if !heard || !Passes(session, t) then after == before
    else if ev.Added? then
      Possible(before.senders, answer.place) && after == AddedTo(before, t.id, t.info, answer.place, answer.mid)
    else
      after == RemovedFrom(before, t.id, t.info.id, answer.ok)
  }

  /** What that means for the tracks being sent: the event is heard exactly if the peer connection agrees. */
  lemma FollowedIsHeard(before: Ledger, after: Ledger, session: SessionId, ev: Event, answer: Answer)
    requires Followed(before, after, session, ev, answer, true) && DistinctSenders(before.senders)
    ensures DistinctSenders(after.senders)
    ensures Active(after.senders) == Heard(Active(before.senders), session, ev, Agrees(ev, answer))
  {
    var t := ev.track;
    if Passes(session, t) && ev.Added? {
      ActiveAfter(before, t.id, t.info, answer.place, answer.mid);
    } else if Passes(session, t) {
      ActiveAfterRemoval(before, t.id, t.info.id, answer.ok);
    }
  }

  /** What an addition and a removal leave in the books of one session. */
  lemma AdditionReaches(before: Ledger, t: Track, p: Placement, mid: string)
    requires Possible(before.senders, p) && !p.Refused?
    ensures var after := AddedTo(before, t.id, t.info, p, mid);
      && t.id in Active(after.senders)
      && (t.id !in Active(before.senders) ==>
            t.info.id in after.infos && after.infos[t.info.id] == t.info.(egressTrackId := t.id, egressMid := mid))
  {
    ActiveAfter(before, t.id, t.info, p, mid);
  }

  lemma RemovalReaches(before: Ledger, t: Track, ok: bool)
    ensures var after := RemovedFrom(before, t.id, t.info.id, ok);
      && (t.id in Active(before.senders) ==> t.info.id !in after.infos)
      && (ok && DistinctSenders(before.senders) ==> t.id !in Active(after.senders))
  {
    if DistinctSenders(before.senders) {
      ActiveAfterRemoval(before, t.id, t.info.id, ok);
    }
  }

  /** The state of a fan-out that has visited the sessions in `done`: `ready` sessions hear the event, unless
      they are stopped, in which case they may. */
  ghost predicate FannedOut(before: map<SessionId, Ledger>, after: map<SessionId, Ledger>, answers: map<SessionId, Answer>,
                            done: set<SessionId>, heard: set<SessionId>, hears: set<SessionId>, stopped: set<SessionId>, ev: Event)
  {
    && after.Keys == before.Keys <= answers.Keys
    && (forall k :: k in before && k !in done ==> after[k] == before[k])
    && done <= before.Keys && heard <= done * hears
    && (forall k :: k in done && k in hears && k !in stopped ==> k in heard)
    && (forall k :: k in done ==> Followed(before[k], after[k], k, ev, answers[k], k in heard))
  }

  /** An addition reaches every session that hears it, runs, is not its source, and whose peer connection agrees. */
  lemma AdditionReachesAll(before: map<SessionId, Ledger>, after: map<SessionId, Ledger>, answers: map<SessionId, Answer>,
                           heard: set<SessionId>, hears: set<SessionId>, stopped: set<SessionId>, t: Track)
    requires FannedOut(before, after, answers, before.Keys, heard, hears, stopped, Added(t)) && hears <= before.Keys
    ensures forall k :: k in hears && k !in stopped && k != t.info.sessionId && !answers[k].place.Refused? ==>
      t.id in Active(after[k].senders)
    ensures forall k :: k in hears && k !in stopped && k != t.info.sessionId && !answers[k].place.Refused? ==>
      (t.id !in Active(before[k].senders) ==>
         && t.info.id in after[k].infos
         && after[k].infos[t.info.id] == t.info.(egressTrackId := t.id, egressMid := answers[k].mid))
    ensures forall k :: k in before && (k !in hears || k == t.info.sessionId) ==> after[k] == before[k]
  {
    forall k | k in heard && k != t.info.sessionId && !answers[k].place.Refused?
      ensures t.id in Active(after[k].senders)
      ensures t.id !in Active(before[k].senders) ==>
        && t.info.id in after[k].infos
        && after[k].infos[t.info.id] == t.info.(egressTrackId := t.id, egressMid := answers[k].mid)
    {
      assert Followed(before[k], after[k], k, Added(t), answers[k], true);
      AdditionReaches(before[k], t, answers[k].place, answers[k].mid);
    }
  }

  /** A removal takes the record in every such session, and the sender where the peer connection agrees. */
  lemma RemovalReachesAll(before: map<SessionId, Ledger>, after: map<SessionId, Ledger>, answers: map<SessionId, Answer>,
                          heard: set<SessionId>, hears: set<SessionId>, stopped: set<SessionId>, t: Track)
    requires FannedOut(before, after, answers, before.Keys, heard, hears, stopped, Removed(t)) && hears <= before.Keys
    ensures forall k :: k in hears && k !in stopped && k != t.info.sessionId && t.id in Active(before[k].senders) ==>
      t.info.id !in after[k].infos
    ensures forall k :: k in hears && k !in stopped && k != t.info.sessionId && answers[k].ok ==>
      (DistinctSenders(before[k].senders) ==> t.id !in Active(after[k].senders))
    ensures forall k :: k in before && (k !in hears || k == t.info.sessionId) ==> after[k] == before[k]
  {
    forall k | k in heard && k != t.info.sessionId
      ensures t.id in Active(before[k].senders) ==> t.info.id !in after[k].infos
      ensures answers[k].ok && DistinctSenders(before[k].senders) ==> t.id !in Active(after[k].senders)
    {
      assert Followed(before[k], after[k], k, Removed(t), answers[k], true);
      RemovalReaches(before[k], t, answers[k].ok);
    }
  }

  lemma FannedOutOneMore(before: map<SessionId, Ledger>, after: map<SessionId, Ledger>, answers: map<SessionId, Answer>,
                         done: set<SessionId>, heard: set<SessionId>, hears: set<SessionId>, stopped: set<SessionId>, ev: Event,
                         k: SessionId, books: Ledger, ready: bool)
    requires FannedOut(before, after, answers, done, heard, hears, stopped, ev)
    requires k in before && k !in done && Followed(before[k], books, k, ev, answers[k], ready)
    requires (ready ==> k in hears) && (k in hears && k !in stopped ==> ready)
    ensures FannedOut(before, after[k := books], answers, done + {k}, if ready then heard + {k} else heard, hears, stopped, ev)
  {
    var after', heard' := after[k := books], if ready then heard + {k} else heard;
    forall j | j in done + {k} ensures Followed(before[j], after'[j], j, ev, answers[j], j in heard') {
      if j != k {
        assert Followed(before[j], after[j], j, ev, answers[j], j in heard);
      }
    }
  }

  /** There is an answer for every session, and the placement it names is possible. */
  ghost predicate Answered(books: map<SessionId, Ledger>, answers: map<SessionId, Answer>) {
    books.Keys <= answers.Keys && forall k :: k in books ==> Possible(books[k].senders, answers[k].place)
  }

  ghost predicate Once(list: seq<Track>) {
    forall i, j :: 0 <= i < j < |list| ==> list[i] != list[j]
  }

  /** The live-stream sender the hub feeds with main tracks. */
  class LiveStreamSender {
    var live: set<TrackId>

    constructor ()
      ensures live == {}
    {
      live := {};
    }

    method AddTrack(id: TrackId)
      modifies this
      ensures live == old(live) + {id}
    {
      live := live + {id};
    }

    method RemoveTrack(id: TrackId)
      modifies this
      ensures live == old(live) - {id}
    {
      live := live - {id};
    }
  }

  ghost function BooksOf(s: Session): Ledger
    reads s, if s.egress == null then {} else {s.egress, s.egress.repo}, if s.egress == null then {} else s.egress.repo.infos.Values
  {
    if s.egress == null then Ledger([], map[]) else s.egress.Books()
  }

  /** The egress endpoint of `s` and its repository lie in `endpoints`, the session and its records do not; its books
      are `books`, and `ready` tells whether a fan-out finds it ready. */
  ghost predicate Shows(s: Session, endpoints: set<object>, books: Ledger, ready: bool)
    reads s, if s.egress == null then {} else {s.egress, s.egress.repo}, if s.egress == null then {} else s.egress.repo.infos.Values
  {
    && s !in endpoints && BooksOf(s) == books && IsReady(s) == ready
    && (s.egress != null ==>
          && s.egress in endpoints && s.egress.repo in endpoints && s.egress.sessionId == s.id
          && forall i :: i in s.egress.repo.infos ==> s.egress.repo.infos[i] !in endpoints)
  }

  /** Unlocked, with an egress endpoint whose initialisation is complete. */
  ghost predicate IsReady(s: Session)
    reads s, if s.egress == null then {} else {s.egress}
  {
    !s.locked && s.egress != null && s.egress.initComplete
  }

  ghost predicate Apart(s: Session, s': Session)
    reads s, s'
  {
    s.egress != null && s'.egress != null ==> s.egress != s'.egress && s.egress.repo != s'.egress.repo
  }

  class Hub {
    const repo: SessionRepository
    const sender: LiveStreamSender
    const metricsOn: bool
    var tracks: map<TrackId, Track>
    var metricNodes: map<SessionId, GraphNode>
    var hubMetricNode: GraphNode

    ghost function Table(): HubTable
      reads this, sender
    {
      HubTable(tracks, metricNodes, hubMetricNode, sender.live)
    }

    constructor (repo: SessionRepository, sender: LiveStreamSender, metricsOn: bool)
      ensures this.repo == repo && this.sender == sender && this.metricsOn == metricsOn
      ensures tracks == map[] && metricNodes == map[] && hubMetricNode == BuildNode()
    {
      this.repo, this.sender, this.metricsOn := repo, sender, metricsOn;
      tracks, metricNodes, hubMetricNode := map[], map[], BuildNode();
    }

    /** Every session has its own endpoint and repository, all of them among `endpoints`, and nothing else is.
        `books` are their senders and records, and a fan-out finds exactly `hears` ready. */
    ghost predicate Holds(endpoints: set<object>, books: map<SessionId, Ledger>, hears: set<SessionId>)
      reads *
    {
      && this !in endpoints && sender !in endpoints && repo !in endpoints
      && books.Keys == repo.sessions.Keys && hears <= repo.sessions.Keys
      && (forall k :: k in repo.sessions ==> repo.sessions[k].id == k && Shows(repo.sessions[k], endpoints, books[k], k in hears))
      && AllApart()
    }

    /** No two sessions share an endpoint or a repository. */
    ghost predicate AllApart()
      reads repo, repo.sessions.Values
    {
      forall j, k :: j in repo.sessions && k in repo.sessions && j != k ==> Apart(repo.sessions[j], repo.sessions[k])
    }

    ghost function Stopped(): set<SessionId>
      reads repo, repo.sessions.Values
    {
      set k | k in repo.sessions && repo.sessions[k].stopped
    }

    method OnAddTrack(track: Track, answers: map<SessionId, Answer>,
                      ghost endpoints: set<object>, ghost books: map<SessionId, Ledger>, ghost hears: set<SessionId>)
      returns (heard: set<SessionId>, ghost books': map<SessionId, Ledger>)
      requires Holds(endpoints, books, hears) && Answered(books, answers)
      modifies this`tracks, this`metricNodes, this`hubMetricNode, sender, endpoints
      ensures Holds(endpoints, books', hears)
      ensures Table() == Entered(old(Table()), track, metricsOn)
      ensures FannedOut(books, books', answers, repo.sessions.Keys, heard, hears, Stopped(), Added(track))
      ensures tracks == old(tracks)[track.id := track]
      ensures forall k :: k in hears && k !in Stopped() && k != track.info.sessionId && !answers[k].place.Refused? ==>
        track.id in Active(books'[k].senders)
      ensures forall k :: k in hears && k !in Stopped() && k != track.info.sessionId && !answers[k].place.Refused? ==>
        (track.id !in Active(books[k].senders) ==>
           && track.info.id in books'[k].infos
           && books'[k].infos[track.info.id] == track.info.(egressTrackId := track.id, egressMid := answers[k].mid))
      ensures forall k :: k in books && (k !in hears || k == track.info.sessionId) ==> books'[k] == books[k]
    {
      Enter(track);
      forall k | k in repo.sessions ensures Shows(repo.sessions[k], endpoints, books[k], k in hears) {
        assert old(Shows(repo.sessions[k], endpoints, books[k], k in hears));
      }
      assert AllApart();
      heard, books' := FanOut(Added(track), answers, endpoints, books, hears);
      AdditionReachesAll(books, books', answers, heard, hears, Stopped(), track);
    }

    /** What OnAddTrack does before it fans the track out. */
    method Enter(track: Track)
      modifies this`tracks, this`metricNodes, this`hubMetricNode, sender
      ensures Table() == Entered(old(Table()), track, metricsOn)
      ensures tracks == old(tracks)[track.id := track]
      ensures sender.live == old(sender.live) + if track.info.purpose == PURPOSE_MAIN then {track.id} else {}
      ensures !metricsOn ==> hubMetricNode == old(hubMetricNode)
      ensures metricsOn && track.info.purpose == PURPOSE_MAIN ==>
        hubMetricNode == GraphNode(old(hubMetricNode).tracks, old(hubMetricNode).mainTracks + 1)
      ensures metricsOn && track.info.purpose != PURPOSE_MAIN ==>
        hubMetricNode == GraphNode(old(hubMetricNode).tracks + 1, old(hubMetricNode).mainTracks)
    {
      IncreaseNodeGraphStats(track.info.sessionId, track.info.purpose);
      hubMetricNode := GraphNodeUpdateInc(hubMetricNode, PurposeText(track.info.purpose), metricsOn);
      if track.info.purpose == PURPOSE_MAIN {
        sender.AddTrack(track.id);
      }
      tracks := tracks[track.id := track];
    }

    method OnRemoveTrack(track: Track, answers: map<SessionId, Answer>,
                      ghost endpoints: set<object>, ghost books: map<SessionId, Ledger>, ghost hears: set<SessionId>)
      returns (heard: set<SessionId>, ghost books': map<SessionId, Ledger>)
      requires Holds(endpoints, books, hears) && Answered(books, answers)
      modifies this`tracks, this`metricNodes, this`hubMetricNode, sender, endpoints
      ensures Holds(endpoints, books', hears)
      ensures Table() == Withdrawn(old(Table()), track, metricsOn)
      ensures FannedOut(books, books', answers, repo.sessions.Keys, heard, hears, Stopped(), Removed(track))
      ensures tracks == old(tracks) - {track.id}
      ensures forall k :: k in hears && k !in Stopped() && k != track.info.sessionId && track.id in Active(books[k].senders) ==>
        track.info.id !in books'[k].infos
      ensures forall k :: k in hears && k !in Stopped() && k != track.info.sessionId && answers[k].ok ==>
        (DistinctSenders(books[k].senders) ==> track.id !in Active(books'[k].senders))
      ensures forall k :: k in books && (k !in hears || k == track.info.sessionId) ==> books'[k] == books[k]
    {
      Withdraw(track);
      forall k | k in repo.sessions ensures Shows(repo.sessions[k], endpoints, books[k], k in hears) {
        assert old(Shows(repo.sessions[k], endpoints, books[k], k in hears));
      }
      assert AllApart();
      heard, books' := FanOut(Removed(track), answers, endpoints, books, hears);
      RemovalReachesAll(books, books', answers, heard, hears, Stopped(), track);
    }

    /** What OnRemoveTrack does before it fans the removal out. */
    method Withdraw(track: Track)
      modifies this`tracks, this`metricNodes, this`hubMetricNode, sender
      ensures Table() == Withdrawn(old(Table()), track, metricsOn)
      ensures tracks == old(tracks) - {track.id}
      ensures sender.live == old(sender.live) - if track.info.purpose == PURPOSE_MAIN then {track.id} else {}
      ensures !metricsOn ==> hubMetricNode == old(hubMetricNode)
      ensures metricsOn && track.info.purpose == PURPOSE_MAIN ==>
        hubMetricNode == GraphNode(old(hubMetricNode).tracks, old(hubMetricNode).mainTracks - 1)
      ensures metricsOn && track.info.purpose != PURPOSE_MAIN ==>
        hubMetricNode == GraphNode(old(hubMetricNode).tracks - 1, old(hubMetricNode).mainTracks)
    {
      hubMetricNode := GraphNodeUpdateDec(hubMetricNode, PurposeText(track.info.purpose), metricsOn);
      DecreaseNodeGraphStats(track.info.sessionId, track.info.purpose);
      if track.info.purpose == PURPOSE_MAIN {
        sender.RemoveTrack(track.id);
      }
      if track.id in tracks {
        tracks := tracks - {track.id};
      }
    }

    method IncreaseNodeGraphStats(session: SessionId, purpose: int)
      modifies this`metricNodes
      ensures metricNodes == Increased(old(metricNodes), session, PurposeText(purpose), metricsOn)
      ensures var node := if session in old(metricNodes) then old(metricNodes)[session] else GraphNode(0, 0);
        metricNodes == old(metricNodes)[session :=
          if !metricsOn then node
          else if purpose == PURPOSE_MAIN then GraphNode(node.tracks, node.mainTracks + 1)
          else GraphNode(node.tracks + 1, node.mainTracks)]
    {
      var node := BuildNode();
      if session in metricNodes {
        node := metricNodes[session];
      }
      metricNodes := metricNodes[session := GraphNodeUpdateInc(node, PurposeText(purpose), metricsOn)];
    }

    method DecreaseNodeGraphStats(session: SessionId, purpose: int)
      modifies this`metricNodes
      ensures metricNodes == Decreased(old(metricNodes), session, PurposeText(purpose), metricsOn)
      ensures session !in old(metricNodes) ==> metricNodes == old(metricNodes)
      ensures session in old(metricNodes) ==>
        var node := old(metricNodes)[session];
        var less := if !metricsOn then node
                    else if purpose == PURPOSE_MAIN then GraphNode(node.tracks, node.mainTracks - 1)
                    else GraphNode(node.tracks - 1, node.mainTracks);
        metricNodes == if less == GraphNode(0, 0) then old(metricNodes) - {session} else old(metricNodes)[session := less]
    {
      if session in metricNodes {
        var node := GraphNodeUpdateDec(metricNodes[session], PurposeText(purpose), metricsOn);
        if node.tracks == 0 && node.mainTracks == 0 {
          metricNodes := metricNodes - {session};
          return;
        }
        metricNodes := metricNodes[session := node];
      }
    }

    /** The iteration over the repository that both handlers end with, in arbitrary map order. */
    method FanOut(ev: Event, answers: map<SessionId, Answer>,
                  ghost endpoints: set<object>, ghost books: map<SessionId, Ledger>, ghost hears: set<SessionId>)
      returns (heard: set<SessionId>, ghost books': map<SessionId, Ledger>)
      requires Holds(endpoints, books, hears) && Answered(books, answers)
      modifies endpoints
      ensures Holds(endpoints, books', hears)
      ensures FannedOut(books, books', answers, repo.sessions.Keys, heard, hears, Stopped(), ev)
    {
      heard, books' := {}, books;
      var rest := repo.sessions.Keys;
      while rest != {}
        invariant Holds(endpoints, books', hears) && rest <= repo.sessions.Keys
        invariant FannedOut(books, books', answers, repo.sessions.Keys - rest, heard, hears, Stopped(), ev)
        decreases rest
      {
        var k :| k in rest;
        var ready;
        ghost var after;
        ready, after := Visit(k, ev, answers[k], endpoints, books', hears);
        FannedOutOneMore(books, books', answers, repo.sessions.Keys - rest, heard, hears, Stopped(), ev, k, after, ready);
        assert repo.sessions.Keys - (rest - {k}) == (repo.sessions.Keys - rest) + {k};
        rest, books' := rest - {k}, books'[k := after];
        if ready {
          heard := heard + {k};
        }
      }
      assert repo.sessions.Keys - rest == repo.sessions.Keys;
    }

    /** The body of that iteration: skip a session that is not ready, else apply the event to its egress. */
    method Visit(k: SessionId, ev: Event, answer: Answer,
                 ghost endpoints: set<object>, ghost books: map<SessionId, Ledger>, ghost hears: set<SessionId>)
      returns (ready: bool, ghost after: Ledger)
      requires Holds(endpoints, books, hears) && k in repo.sessions && Possible(books[k].senders, answer.place)
      modifies endpoints
      ensures Holds(endpoints, books[k := after], hears)
      ensures (ready ==> k in hears) && (k in hears && k !in Stopped() ==> ready)
      ensures Followed(books[k], after, k, ev, answer, ready)
    {
      assert Shows(repo.sessions[k], endpoints, books[k], k in hears);
      ready := repo.sessions[k].InitComplete();
      after := books[k];
      if ready {
        after := DeliverTo(k, ev, answer, endpoints, books, hears);
        assert forall j :: j in books ==> books[k := after][j] == if j == k then after else books[j];
      } else {
        assert books[k := after] == books;
      }
    }

    /** One delivery leaves the other sessions alone. */
    method DeliverTo(k: SessionId, ev: Event, answer: Answer,
                     ghost endpoints: set<object>, ghost books: map<SessionId, Ledger>, ghost hears: set<SessionId>)
      returns (ghost after: Ledger)
      requires Holds(endpoints, books, hears) && k in hears && Possible(books[k].senders, answer.place)
      modifies endpoints
      ensures forall j :: j in repo.sessions ==>
        Shows(repo.sessions[j], endpoints, if j == k then after else books[j], j in hears)
      ensures AllApart() && Followed(books[k], after, k, ev, answer, true)
    {
      var s := repo.sessions[k];
      after := Deliver(s, ev, answer, endpoints, books[k]);
      forall j | j in repo.sessions && j != k ensures Shows(repo.sessions[j], endpoints, books[j], j in hears) {
        assert Apart(repo.sessions[j], s) && old(Shows(repo.sessions[j], endpoints, books[j], j in hears));
      }
    }

    /** Applies an event to the egress endpoint of one session, unless the filter stops it. */
    method Deliver(s: Session, ev: Event, answer: Answer, ghost endpoints: set<object>, ghost before: Ledger)
      returns (ghost after: Ledger)
      requires s.egress != null && IsReady(s) && Shows(s, endpoints, before, true) && Possible(before.senders, answer.place)
      modifies s.egress, s.egress.repo
      ensures Shows(s, endpoints, after, true) && Followed(before, after, s.id, ev, answer, true)
    {
      if Passes(s.id, ev.track) {
        match ev {
          case Added(track) => s.AddTrack(track, answer.place, answer.mid);
          case Removed(track) => s.RemoveTrack(track, answer.ok);
        }
      }
      after := s.egress.Books();
    }

    /** The hub's answer to a track-list request: every track once, in arbitrary map order. */
    method OnGetTrackList() returns (list: seq<Track>)
      requires forall id :: id in tracks ==> tracks[id].id == id
      ensures (set t | t in list) == tracks.Values
      ensures forall t :: t in list <==> t.id in tracks && tracks[t.id] == t
      ensures |list| == |tracks| && Once(list)
    {
      list := [];
      var rest := tracks.Keys;
      while rest != {}
        invariant rest <= tracks.Keys && |list| == |tracks| - |rest| && Once(list)
        invariant forall t :: t in list <==> t.id in tracks && t.id !in rest && tracks[t.id] == t
        decreases rest
      {
        var id :| id in rest;
        rest := rest - {id};
        list := list + [tracks[id]];
      }
    }

    /** The caller's half: keep what passes the session's filter. */
    method GetTrackList(session: SessionId) returns (list: seq<Track>)
      requires forall id :: id in tracks ==> tracks[id].id == id
      ensures (set t | t in list :: t.id) == Others(tracks, session)
      ensures forall t :: t in list <==> t.id in tracks && tracks[t.id] == t && t.info.sessionId != session
      ensures Once(list)
    {
      var hubList := OnGetTrackList();
      list := [];
      for i := 0 to |hubList|
        invariant Once(list) && forall t :: t in list <==> t in hubList[..i] && Passes(session, t)
      {
        if Passes(session, hubList[i]) {
          list := list + [hubList[i]];
        }
      }
      assert hubList[..|hubList|] == hubList;
      forall id | id in Others(tracks, session) ensures exists t :: t in list && t.id == id {
        assert tracks[id] in tracks.Values && tracks[id] in hubList;
      }
      forall t | t in list ensures t.id in Others(tracks, session) {
        assert t in tracks.Values;
      }
    }
  }

  /** The calls the catch-up makes for a snapshot list, with the peer connection's answers. */
  function Additions(list: seq<Track>, answers: seq<Answer>): seq<Op>
    requires |list| == |answers|
  {
    seq(|list|, i requires 0 <= i < |list| => Add(list[i].id, list[i].info, answers[i].place, answers[i].mid))
  }

  /** The tracks of the list that the peer connection placed. */
  ghost function Accepted(list: seq<Track>, answers: seq<Answer>): set<TrackId>
    requires |list| == |answers|
  {
    set i | 0 <= i < |list| && !answers[i].place.Refused? :: list[i].id
  }

  /** No other entry of the list has the same track or record id, as when both are fresh for every track. */
  ghost predicate Singled(list: seq<Track>, i: nat)
    requires i < |list|
  {
    forall j :: 0 <= j < |list| && j != i ==> list[j].id != list[i].id && list[j].info.id != list[i].info.id
  }

  lemma RestOfAdditions(list: seq<Track>, answers: seq<Answer>)
    requires |list| == |answers| > 0
    ensures Additions(list, answers)[1..] == Additions(list[1..], answers[1..])
    ensures Accepted(list, answers) ==
      Accepted(list[1..], answers[1..]) + if answers[0].place.Refused? then {} else {list[0].id}
  {
    var rest := Accepted(list[1..], answers[1..]);
    forall id | id in rest ensures id in Accepted(list, answers) {
      var j :| 0 <= j < |list| - 1 && !answers[1..][j].place.Refused? && list[1..][j].id == id;
      assert !answers[j+1].place.Refused? && list[j+1].id == id;
    }
    forall id | id in Accepted(list, answers) && (answers[0].place.Refused? || id != list[0].id) ensures id in rest {
      var j :| 0 <= j < |list| && !answers[j].place.Refused? && list[j].id == id;
      assert !answers[1..][j-1].place.Refused? && list[1..][j-1].id == id;
    }
  }

  /** The tracks sent after a snapshot has been applied. */
  lemma {:induction false} AdditionsSend(b: Ledger, list: seq<Track>, answers: seq<Answer>)
    requires |list| == |answers| && PossibleRun(b, Additions(list, answers))
    ensures var after := AfterAll(b, Additions(list, answers));
      Active(after.senders) == Active(b.senders) + Accepted(list, answers) &&
      (DistinctSenders(b.senders) ==> DistinctSenders(after.senders))
    decreases |list|
  {
    if list != [] {
      var t, a := list[0], answers[0];
      RestOfAdditions(list, answers);
      ActiveAfter(b, t.id, t.info, a.place, a.mid);
      AdditionsSend(AddedTo(b, t.id, t.info, a.place, a.mid), list[1..], answers[1..]);
    }
  }

  /** Records of other tracks stay as they were. */
  lemma {:induction false} AdditionsSpare(b: Ledger, list: seq<Track>, answers: seq<Answer>, k: InfoId)
    requires |list| == |answers| && PossibleRun(b, Additions(list, answers))
    requires forall i :: 0 <= i < |list| ==> list[i].info.id != k
    ensures Lookup(AfterAll(b, Additions(list, answers)).infos, k) == Lookup(b.infos, k)
    decreases |list|
  {
    if list != [] {
      RestOfAdditions(list, answers);
      AdditionsSpare(AddedTo(b, list[0].id, list[0].info, answers[0].place, answers[0].mid), list[1..], answers[1..], k);
    }
  }

  /** A placed track that was not sent before has its record, with its own metadata. */
  lemma {:induction false} AdditionsRecord(b: Ledger, list: seq<Track>, answers: seq<Answer>, i: nat)
    requires |list| == |answers| && PossibleRun(b, Additions(list, answers))
    requires i < |list| && Singled(list, i) && !answers[i].place.Refused? && list[i].id !in Active(b.senders)
    ensures Lookup(AfterAll(b, Additions(list, answers)).infos, list[i].info.id) ==
              Some(list[i].info.(egressTrackId := list[i].id, egressMid := answers[i].mid))
    decreases |list|
  {
    var t, a := list[0], answers[0];
    var b1 := AddedTo(b, t.id, t.info, a.place, a.mid);
    RestOfAdditions(list, answers);
    if i == 0 {
      AdditionsSpare(b1, list[1..], answers[1..], t.info.id);
    } else {
      ActiveAfter(b, t.id, t.info, a.place, a.mid);
      AdditionsRecord(b1, list[1..], answers[1..], i - 1);
    }
  }

  /** The catch-up loop of a new egress endpoint: apply the snapshot one track after the other. */
  method CatchUp(session: Session, list: seq<Track>, answers: seq<Answer>)
    requires session.egress != null && |answers| == |list|
    requires PossibleRun(session.egress.Books(), Additions(list, answers))
    modifies session.egress, session.egress.repo
    ensures session.egress.Books() == AfterAll(old(session.egress.Books()), Additions(list, answers))
    ensures Active(session.egress.senders) == old(Active(session.egress.senders)) + Accepted(list, answers)
    ensures old(DistinctSenders(session.egress.senders)) ==> DistinctSenders(session.egress.senders)
    ensures (forall i :: 0 <= i < |list| ==> !answers[i].place.Refused?) ==>
      forall i :: 0 <= i < |list| ==> list[i].id in Active(session.egress.senders)
    ensures forall i :: (0 <= i < |list| && Singled(list, i) && !answers[i].place.Refused?
                         && list[i].id !in old(Active(session.egress.senders))) ==>
      Lookup(session.egress.repo.Values(), list[i].info.id) ==
        Some(list[i].info.(egressTrackId := list[i].id, egressMid := answers[i].mid))
    ensures forall k :: (forall i :: 0 <= i < |list| ==> list[i].info.id != k) ==>
      Lookup(session.egress.repo.Values(), k) == Lookup(old(session.egress.repo.Values()), k)
  {
    ghost var start, ops := session.egress.Books(), Additions(list, answers);
    for i := 0 to |list|
      invariant PossibleRun(session.egress.Books(), ops[i..])
      invariant AfterAll(session.egress.Books(), ops[i..]) == AfterAll(start, ops)
    {
      assert ops[i..][0] == ops[i] && ops[i..][1..] == ops[i+1..];
      session.AddTrack(list[i], answers[i].place, answers[i].mid);
    }
    AdditionsSend(start, list, answers);
    forall i | 0 <= i < |list| && Singled(list, i) && !answers[i].place.Refused? && list[i].id !in Active(start.senders)
      ensures Lookup(session.egress.repo.Values(), list[i].info.id) ==
                Some(list[i].info.(egressTrackId := list[i].id, egressMid := answers[i].mid))
    {
      AdditionsRecord(start, list, answers, i);
    }
    forall k | forall i :: 0 <= i < |list| ==> list[i].info.id != k
      ensures Lookup(session.egress.repo.Values(), k) == Lookup(start.infos, k)
    {
      AdditionsSpare(start, list, answers, k);
    }
  }
}
