/** The egress bookkeeping of an RTP endpoint (internal/rtp/endpoint.go). The peer connection is a list of
    senders, each with an optional track; where it puts a track, and whether a call succeeds, is its choice. */
module Endpoint {
  import opened Wrappers
  import opened TrackInfo
  import opened InfoRepository

  /** How the peer connection answers AddTrack: an error, an idle sender taken over, or a new sender. */
  datatype Placement = Refused | Reused(slot: nat) | Appended

  predicate Possible(senders: seq<Option<TrackId>>, p: Placement) {
    p.Reused? ==> p.slot < |senders| && senders[p.slot].None?
  }

  function Placed(senders: seq<Option<TrackId>>, track: TrackId, p: Placement): seq<Option<TrackId>>
    requires Possible(senders, p)
  {
    match p
    case Refused => senders
    case Reused(i) => senders[i := Some(track)]
    case Appended => senders + [Some(track)]
  }

  /** The tracks that are being sent. */
  ghost function Active(senders: seq<Option<TrackId>>): set<TrackId> {
    set i | 0 <= i < |senders| && senders[i].Some? :: senders[i].value
  }

  /** The first sender of `track`, as the scan over the sender list finds it. */
  function SenderOf(senders: seq<Option<TrackId>>, track: TrackId): (r: Option<nat>)
    ensures r.Some? ==> r.value < |senders| && senders[r.value] == Some(track)
    ensures r.None? ==> Some(track) !in senders
    ensures r.Some? <==> track in Active(senders)
  {
    if senders == [] then None
    else if senders[0] == Some(track) then Some(0)
    else
      assert senders == [senders[0]] + senders[1..];
      var r := SenderOf(senders[1..], track);
      assert track in Active(senders[1..]) ==> Some(track) in senders[1..] && track in Active(senders);
      assert r.Some? ==> senders[r.value + 1] == Some(track);
      assert r.None? ==> Some(track) !in senders;
      if r.Some? then Some(r.value + 1) else None
  }

  /** Senders and records of one endpoint. */
  datatype Ledger = Ledger(senders: seq<Option<TrackId>>, infos: map<InfoId, Info>)

  ghost function AddedTo(b: Ledger, track: TrackId, info: Info, p: Placement, mid: string): Ledger
    requires Possible(b.senders, p)
  {
    if track in Active(b.senders) || p.Refused? then b
    else Ledger(Placed(b.senders, track, p), b.infos[info.id := info.(egressTrackId := track, egressMid := mid)])
  }

  ghost function RemovedFrom(b: Ledger, track: TrackId, infoId: InfoId, ok: bool): Ledger {
    match SenderOf(b.senders, track)
    case None => b
    case Some(i) => Ledger(if ok then b.senders[i := None] else b.senders, b.infos - {infoId})
  }

  /** The first sender of `track` is idle now, nothing else has changed. */
  ghost predicate OnlyFirstCleared(before: seq<Option<TrackId>>, after: seq<Option<TrackId>>, track: TrackId) {
    && |after| == |before|
    && forall j :: 0 <= j < |before| ==>
         after[j] == if before[j] == Some(track) && Some(track) !in before[..j] then None else before[j]
  }

  lemma FirstCleared(senders: seq<Option<TrackId>>, track: TrackId, i: nat)
    requires i < |senders| && senders[i] == Some(track) && forall j :: 0 <= j < i ==> senders[j] != Some(track)
    ensures OnlyFirstCleared(senders, senders[i := None], track)
  {
    forall j | i < j < |senders| ensures Some(track) in senders[..j] {
      assert senders[..j][i] == Some(track);
    }
  }

  class Endpoint {
    const sessionId: SessionId
    const repo: TrackSdpInfoRepository
    var senders: seq<Option<TrackId>>
    var initComplete: bool   // the channel has been closed

    constructor (sessionId: SessionId)
      ensures this.sessionId == sessionId && senders == [] && !initComplete && repo.infos == map[] && fresh(repo)
    {
      this.sessionId := sessionId;
      repo := new TrackSdpInfoRepository();
      senders, initComplete := [], false;
    }

    ghost function Books(): Ledger
      reads this, repo, repo.infos.Values
    {
      Ledger(senders, repo.Values())
    }

    /** `stopped` is the session context; once it is done the channel is not closed any more. */
    method SetInitComplete(stopped: bool)
      modifies this`initComplete
      ensures initComplete == (old(initComplete) || !stopped)
    {
      if !initComplete && !stopped {
        initComplete := true;
      }
    }

    /** With both channels ready, Go's select may take either branch. */
    method IsInitComplete(stopped: bool) returns (r: bool)
      ensures r ==> initComplete
      ensures !stopped ==> r == initComplete
    {
      r := initComplete;
      if stopped {
        r := *;
        r := r && initComplete;
      }
    }

    method HasTrack(track: TrackId) returns (r: bool)
      ensures r <==> track in Active(senders)
    {
      for i := 0 to |senders|
        invariant forall j :: 0 <= j < i ==> senders[j] != Some(track)
      {
        if senders[i].Some? && senders[i].value == track {
          return true;
        }
      }
      r := false;
    }

    method GetSender(track: TrackId) returns (r: Option<nat>)
      ensures r == SenderOf(senders, track)
      ensures r.None? <==> Some(track) !in senders
      ensures r.Some? ==> r.value < |senders| && senders[r.value] == Some(track)
      ensures r.Some? ==> forall j :: 0 <= j < r.value ==> senders[j] != Some(track)
    {
      for i := 0 to |senders|
        invariant forall j :: 0 <= j < i ==> senders[j] != Some(track)
      {
        if senders[i].Some? && senders[i].value == track {
          SenderIsFirst(senders, track, i);
          return Some(i);
        }
      }
      r := None;
    }

    method AddTrack(track: TrackId, info: Info, p: Placement, mid: string)
      requires Possible(senders, p)
      modifies this`senders, repo
      ensures Books() == AddedTo(old(Books()), track, info, p, mid)
      ensures old(repo.Valid()) ==> repo.Valid()
      ensures forall i :: i in repo.infos ==> fresh(repo.infos[i]) || (i in old(repo.infos) && repo.infos[i] == old(repo.infos)[i])
    {
      var has := HasTrack(track);
      if !has {
        if p.Refused? {
          return;
        }
        senders := Placed(senders, track, p);
        assert repo.Values() == old(repo.Values());
        Record(info.(egressTrackId := track, egressMid := mid));
      }
    }

    /** Stores a copy of `v` under its id. */
    method Record(v: Info)
      modifies repo
      ensures repo.Values() == old(repo.Values())[v.id := v]
      ensures old(repo.Valid()) ==> repo.Valid()
      ensures forall i :: i in repo.infos ==> fresh(repo.infos[i]) || (i in old(repo.infos) && repo.infos[i] == old(repo.infos)[i])
    {
      var sdpTrack := new TrackSdpInfo.Copy(v);
      repo.Set(v.id, sdpTrack);
    }

    method RemoveTrack(track: TrackId, infoId: InfoId, ok: bool)
      modifies this`senders, repo
      ensures Books() == RemovedFrom(old(Books()), track, infoId, ok)
      ensures forall i :: i in repo.infos ==> i in old(repo.infos) && repo.infos[i] == old(repo.infos)[i]
      ensures old(repo.Valid()) ==> repo.Valid()
    {
      var sender := GetSender(track);
      if sender.Some? {
        var _ := repo.Delete(infoId);
        if ok {
          Release(sender.value);
        }
      }
    }

    /** Leaves the sender idle. */
    method Release(slot: nat)
      requires slot < |senders|
      modifies this`senders
      ensures senders == old(senders)[slot := None] && repo.Values() == old(repo.Values())
    {
      senders := senders[slot := None];
    }
  }

  /** A track that is sent already or refused changes nothing; else it takes the idle sender it is given or a new one at
      the end, and its record is the given one but for egress track id and mid. */
  lemma AdditionSays(b: Ledger, track: TrackId, info: Info, p: Placement, mid: string)
    requires Possible(b.senders, p)
    ensures var after := AddedTo(b, track, info, p, mid);
      && (Some(track) in b.senders || p.Refused? ==> after == b)
      && (Some(track) !in b.senders && p.Appended? ==> after.senders == b.senders + [Some(track)])
      && (Some(track) !in b.senders && p.Reused? ==> after.senders == b.senders[p.slot := Some(track)])
      && (Some(track) !in b.senders && !p.Refused? ==>
            after.infos == b.infos[info.id := info.(egressTrackId := track, egressMid := mid)])
  {
    SentIffListed(b.senders, track);
  }

  lemma SentIffListed(senders: seq<Option<TrackId>>, track: TrackId)
    ensures track in Active(senders) <==> Some(track) in senders
  {
  }

  /** A track that is not sent changes nothing; else the record goes, and its first sender idles if the peer connection
      agrees. */
  lemma RemovalSays(b: Ledger, track: TrackId, infoId: InfoId, ok: bool)
    ensures var after := RemovedFrom(b, track, infoId, ok);
      && (Some(track) !in b.senders ==> after == b)
      && (Some(track) in b.senders ==> after.infos == b.infos - {infoId})
      && (Some(track) in b.senders && !ok ==> after.senders == b.senders)
      && (Some(track) in b.senders && ok ==> OnlyFirstCleared(b.senders, after.senders, track))
  {
    if i :| 0 <= i < |b.senders| && b.senders[i] == Some(track) {
      var first := FirstSender(b.senders, track, i);
      SenderIsFirst(b.senders, track, first);
      FirstCleared(b.senders, track, first);
    }
  }

  lemma FirstSender(senders: seq<Option<TrackId>>, track: TrackId, i: nat) returns (first: nat)
    requires i < |senders| && senders[i] == Some(track)
    ensures first <= i && senders[first] == Some(track) && forall j :: 0 <= j < first ==> senders[j] != Some(track)
  {
    first := i;
    if k :| 0 <= k < i && senders[k] == Some(track) {
      first := FirstSender(senders, track, k);
    }
  }

  lemma {:induction false} SenderIsFirst(senders: seq<Option<TrackId>>, track: TrackId, i: nat)
    requires i < |senders| && senders[i] == Some(track) && forall j :: 0 <= j < i ==> senders[j] != Some(track)
    ensures SenderOf(senders, track) == Some(i)
  {
    if i > 0 {
      SenderIsFirst(senders[1..], track, i - 1);
    }
  }

  ghost predicate DistinctSenders(senders: seq<Option<TrackId>>) {
    forall i, j :: 0 <= i < j < |senders| && senders[i].Some? ==> senders[i] != senders[j]
  }

  lemma ActiveAfterPlacing(senders: seq<Option<TrackId>>, track: TrackId, p: Placement)
    requires Possible(senders, p) && !p.Refused?
    ensures Active(Placed(senders, track, p)) == Active(senders) + {track}
    ensures DistinctSenders(senders) && track !in Active(senders) ==> DistinctSenders(Placed(senders, track, p))
  {
    var after := Placed(senders, track, p);
    forall t | t in Active(senders) ensures t in Active(after) {
      var i :| 0 <= i < |senders| && senders[i] == Some(t);
      assert after[i] == Some(t);
    }
    var at := if p.Reused? then p.slot else |senders|;
    assert after[at] == Some(track);
  }

  lemma ActiveAfterRemoving(senders: seq<Option<TrackId>>, track: TrackId)
    requires DistinctSenders(senders)
    ensures var r := SenderOf(senders, track);
      var after := if r.Some? then senders[r.value := None] else senders;
      Active(after) == Active(senders) - {track} && DistinctSenders(after)
  {
    var r := SenderOf(senders, track);
    if r.Some? {
      var after := senders[r.value := None];
      forall t | t in Active(senders) && t != track ensures t in Active(after) {
        var i :| 0 <= i < |senders| && senders[i] == Some(t);
        assert after[i] == Some(t);
      }
    }
  }

  /** An addition adds its track to those being sent unless it is refused, a removal takes exactly its track away
      unless it is refused, and no track is ever sent twice. */
  lemma ActiveAfter(b: Ledger, track: TrackId, info: Info, p: Placement, mid: string)
    requires Possible(b.senders, p)
    ensures Active(AddedTo(b, track, info, p, mid).senders) == Active(b.senders) + if p.Refused? then {} else {track}
    ensures DistinctSenders(b.senders) ==> DistinctSenders(AddedTo(b, track, info, p, mid).senders)
  {
    if !p.Refused? {
      ActiveAfterPlacing(b.senders, track, p);
    }
  }

  lemma ActiveAfterRemoval(b: Ledger, track: TrackId, infoId: InfoId, ok: bool)
    requires DistinctSenders(b.senders)
    ensures Active(RemovedFrom(b, track, infoId, ok).senders) == Active(b.senders) - if ok then {track} else {}
    ensures DistinctSenders(RemovedFrom(b, track, infoId, ok).senders)
  {
    if ok {
      ActiveAfterRemoving(b.senders, track);
    }
  }

  // Bookkeeping

  /** The tracks the records name. */
  ghost function Named(infos: map<InfoId, Info>): set<TrackId> {
    set k | k in infos :: infos[k].egressTrackId
  }

  lemma NamedWith(infos: map<InfoId, Info>, id: InfoId, v: Info)
    requires id !in infos
    ensures Named(infos[id := v]) == Named(infos) + {v.egressTrackId}
  {
    var after := infos[id := v];
    forall t | t in Named(infos) + {v.egressTrackId} ensures t in Named(after) {
      if t in Named(infos) {
        var k :| k in infos && infos[k].egressTrackId == t;
        assert after[k].egressTrackId == t;
      } else {
        assert after[id].egressTrackId == t;
      }
    }
  }

  lemma NamedWithout(infos: map<InfoId, Info>, id: InfoId)
    requires UniqueEgressIds(infos) && id in infos
    ensures Named(infos - {id}) == Named(infos) - {infos[id].egressTrackId}
  {
    var after := infos - {id};
    forall t | t in Named(infos) && t != infos[id].egressTrackId ensures t in Named(after) {
      var k :| k in infos && infos[k].egressTrackId == t;
      assert after[k].egressTrackId == t;
    }
  }

  /** Every record names an active track and every active track has exactly one record. */
  ghost predicate Kept(b: Ledger) {
    && DistinctSenders(b.senders)
    && UniqueEgressIds(b.infos)
    && Named(b.infos) == Active(b.senders)
  }

  /** Exactly when adding a track keeps the books. */
  lemma AddKeepsBooksIff(b: Ledger, track: TrackId, info: Info, p: Placement, mid: string)
    requires Kept(b) && Possible(b.senders, p)
    ensures Kept(AddedTo(b, track, info, p, mid)) <==>
            track in Active(b.senders) || p.Refused? || info.id !in b.infos
  {
    if track !in Active(b.senders) && !p.Refused? {
      var b' := AddedTo(b, track, info, p, mid);
      ActiveAfterPlacing(b.senders, track, p);
      if info.id !in b.infos {
        NamedWith(b.infos, info.id, b'.infos[info.id]);
        assert forall k :: k in b.infos ==> b.infos[k].egressTrackId in Named(b.infos);
      } else {
        var lost := b.infos[info.id].egressTrackId;
        assert lost in Named(b.infos) && lost != track;
        assert lost in Active(b'.senders) && lost !in Named(b'.infos);
      }
    }
  }

  /** Exactly when removing a track keeps the books: a refused removal of a live track, or a record id that
      does not belong to the track, breaks them for good. */
  lemma RemoveKeepsBooksIff(b: Ledger, track: TrackId, infoId: InfoId, ok: bool)
    requires Kept(b)
    ensures Kept(RemovedFrom(b, track, infoId, ok)) <==>
            track !in Active(b.senders)
            || (ok && infoId in b.infos && b.infos[infoId].egressTrackId == track)
            || (!ok && infoId !in b.infos)
  {
    if track in Active(b.senders) {
      ActiveAfterRemoving(b.senders, track);
      if infoId in b.infos {
        NamedWithout(b.infos, infoId);
        assert b.infos[infoId].egressTrackId in Named(b.infos);
      } else {
        assert b.infos - {infoId} == b.infos;
      }
    }
  }

  // Whole runs

  datatype Op =
    | Add(track: TrackId, info: Info, placement: Placement, mid: string)
    | Remove(track: TrackId, infoId: InfoId, ok: bool)

  ghost predicate PossibleRun(b: Ledger, ops: seq<Op>)
    decreases |ops|
  {
    ops == [] || ((ops[0].Add? ==> Possible(b.senders, ops[0].placement)) && PossibleRun(After(b, ops[0]), ops[1..]))
  }

  ghost function After(b: Ledger, op: Op): Ledger
    requires op.Add? ==> Possible(b.senders, op.placement)
  {
    match op
    case Add(t, info, p, mid) => AddedTo(b, t, info, p, mid)
    case Remove(t, id, ok) => RemovedFrom(b, t, id, ok)
  }

  ghost function AfterAll(b: Ledger, ops: seq<Op>): Ledger
    requires PossibleRun(b, ops)
    decreases |ops|
  {
    if ops == [] then b else AfterAll(After(b, ops[0]), ops[1..])
  }

  /** Track ids and record ids are one-to-one, as `idOf` pairs them, and removals succeed. */
  ghost predicate Paired(op: Op, idOf: map<TrackId, InfoId>) {
    && op.track in idOf
    && idOf[op.track] == (if op.Add? then op.info.id else op.infoId)
    && (op.Remove? ==> op.ok)
  }

  ghost predicate Injective(idOf: map<TrackId, InfoId>) {
    forall t, u :: t in idOf && u in idOf && idOf[t] == idOf[u] ==> t == u
  }

  ghost predicate RecordsPaired(b: Ledger, idOf: map<TrackId, InfoId>) {
    forall k :: k in b.infos ==> b.infos[k].egressTrackId in idOf && idOf[b.infos[k].egressTrackId] == k
  }

  /** Over any run, the records name exactly the tracks being sent, once each. */
  lemma {:induction false} BooksKeptOverRuns(b: Ledger, ops: seq<Op>, idOf: map<TrackId, InfoId>)
    requires Kept(b) && RecordsPaired(b, idOf) && Injective(idOf)
    requires PossibleRun(b, ops) && forall i :: 0 <= i < |ops| ==> Paired(ops[i], idOf)
    ensures Kept(AfterAll(b, ops)) && RecordsPaired(AfterAll(b, ops), idOf)
    decreases |ops|
  {
    if ops != [] {
      var op := ops[0];
      assert Paired(op, idOf);
      match op {
        case Add(t, info, p, mid) =>
          AddKeepsBooksIff(b, t, info, p, mid);
          if info.id in b.infos {
            assert b.infos[info.id].egressTrackId in Named(b.infos);
          }
        case Remove(t, id, ok) =>
          RemoveKeepsBooksIff(b, t, id, ok);
          if t in Active(b.senders) {
            var k :| k in b.infos && b.infos[k].egressTrackId == t;
          }
      }
      BooksKeptOverRuns(After(b, op), ops[1..], idOf);
    }
  }
}
