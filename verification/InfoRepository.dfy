/** The repository of track records of one endpoint (internal/rtp/track_sdp_info_repository.go). */
module InfoRepository {
  import opened Wrappers
  import opened TrackInfo

  class TrackSdpInfoRepository {
    var infos: map<InfoId, TrackSdpInfo>

    /** No two ids share a record. */
    ghost predicate Valid()
      reads this
    {
      forall i, j :: i in infos && j in infos && infos[i] == infos[j] ==> i == j
    }

    ghost function Values(): map<InfoId, Info>
      reads this, infos.Values
    {
      map i | i in infos :: infos[i].Value()
    }

    constructor ()
      ensures infos == map[] && Valid()
    {
      infos := map[];
    }

    method Set(id: InfoId, info: TrackSdpInfo)
      modifies this
      ensures infos == old(infos)[id := info]
      ensures Values() == old(Values())[id := info.Value()]
      ensures old(Valid()) && info !in old(infos.Values) ==> Valid()
    {
      infos := infos[id := info];
    }

    method Get(id: InfoId) returns (info: TrackSdpInfo?)
      ensures info != null <==> id in infos
      ensures info != null ==> info == infos[id]
    {
      info := if id in infos then infos[id] else null;
    }

    method Delete(id: InfoId) returns (ok: bool)
      modifies this
      ensures ok == (id in old(infos))
      ensures infos == old(infos) - {id}
      ensures Values() == old(Values()) - {id}
      ensures old(Valid()) ==> Valid()
    {
      ok := id in infos;
      if ok {
        infos := infos - {id};
      }
    }

    /** Returns the first match met in the arbitrary order of map iteration. */
    method GetSdpInfoByEgressTrackId(trackId: TrackId) returns (r: Option<InfoId>)
      ensures r.Some? ==> r.value in infos && infos[r.value].egressTrackId == trackId
      ensures r.None? ==> forall i :: i in infos ==> infos[i].egressTrackId != trackId
      ensures FindsEgress(Values(), trackId, r)
    {
      var rest := infos.Keys;
      while rest != {}
        invariant rest <= infos.Keys
        invariant forall i :: i in infos && i !in rest ==> infos[i].egressTrackId != trackId
        decreases rest
      {
        var i :| i in rest;
        if infos[i].egressTrackId == trackId {
          return Some(i);
        }
        rest := rest - {i};
      }
      r := None;
    }

    method GetSdpInfoByIngressTrackId(trackId: TrackId) returns (r: Option<InfoId>)
      ensures r.Some? ==> r.value in infos && infos[r.value].ingressTrackId == trackId
      ensures r.None? ==> forall i :: i in infos ==> infos[i].ingressTrackId != trackId
    {
      var rest := infos.Keys;
      while rest != {}
        invariant rest <= infos.Keys
        invariant forall i :: i in infos && i !in rest ==> infos[i].ingressTrackId != trackId
        decreases rest
      {
        var i :| i in rest;
        if infos[i].ingressTrackId == trackId {
          return Some(i);
        }
        rest := rest - {i};
      }
      r := None;
    }
  }

  /** A possible result of looking up `trackId` on the sending side. */
  ghost predicate FindsEgress(values: map<InfoId, Info>, trackId: TrackId, r: Option<InfoId>) {
    match r
    case Some(i) => i in values && values[i].egressTrackId == trackId
    case None => forall i :: i in values ==> values[i].egressTrackId != trackId
  }

  ghost predicate UniqueEgressIds(values: map<InfoId, Info>) {
    forall i, j :: i in values && j in values && values[i].egressTrackId == values[j].egressTrackId ==> i == j
  }

  /** Lookup by egress track id is a function, whatever the map order, exactly when no two records share an id. */
  lemma LookupIsFunctionIff(values: map<InfoId, Info>)
    ensures UniqueEgressIds(values) <==>
            forall t, r, r' :: FindsEgress(values, t, r) && FindsEgress(values, t, r') ==> r == r'
  {
    if !UniqueEgressIds(values) {
      var i, j :| i in values && j in values && values[i].egressTrackId == values[j].egressTrackId && i != j;
      var t := values[i].egressTrackId;
      assert FindsEgress(values, t, Some(i)) && FindsEgress(values, t, Some(j));
    }
  }
}
