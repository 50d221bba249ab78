/** The metadata record kept for every track (internal/rtp/track_sdp_info.go). */
module TrackInfo {
  import opened Wrappers

  /** Purposes are plain Go ints; only these two are ever meant. */
  const PURPOSE_GUEST: int := 1
  const PURPOSE_MAIN: int := 2

  datatype Info = Info(
    id: InfoId,
    sessionId: SessionId,
    ingressMid: string,
    ingressTrackId: TrackId,
    egressMid: string,
    egressTrackId: TrackId,
    purpose: int,
    mute: bool,
    text: string)

  /** The record the constructor makes for a fresh id. */
  function NewInfo(id: InfoId, sessionId: SessionId): Info {
    Info(id, sessionId, "", TrackId(""), "", TrackId(""), PURPOSE_GUEST, false, "Guest")
  }

  function PurposeText(purpose: int): (r: string) {
    if purpose == PURPOSE_MAIN then "main" else "guest"
  }

  /** A local track together with its metadata, as the hub passes it around. */
  datatype Track = Track(id: TrackId, info: Info)

  /** Records are shared by pointer and updated in place. */
  class TrackSdpInfo {
    var id: InfoId
    var sessionId: SessionId
    var ingressMid: string
    var ingressTrackId: TrackId
    var egressMid: string
    var egressTrackId: TrackId
    var purpose: int
    var mute: bool
    var text: string

    ghost function Value(): Info
      reads this
    {
      Info(id, sessionId, ingressMid, ingressTrackId, egressMid, egressTrackId, purpose, mute, text)
    }

    constructor (id: InfoId, sessionId: SessionId)
      ensures Value() == NewInfo(id, sessionId)
      ensures this.id == id && this.sessionId == sessionId
      ensures purpose == PURPOSE_GUEST == 1 && !mute && text == "Guest"
      ensures ingressMid == egressMid == "" && ingressTrackId == egressTrackId == TrackId("")
    {
      this.id, this.sessionId := id, sessionId;
      ingressMid, ingressTrackId, egressMid, egressTrackId := "", TrackId(""), "", TrackId("");
      purpose, mute, text := PURPOSE_GUEST, false, "Guest";
    }

    /** A copy of `v`, as Go's struct assignment makes one. */
    constructor Copy(v: Info)
      ensures Value() == v
    {
      id, sessionId := v.id, v.sessionId;
      ingressMid, ingressTrackId, egressMid, egressTrackId :=
        v.ingressMid, v.ingressTrackId, v.egressMid, v.egressTrackId;
      purpose, mute, text := v.purpose, v.mute, v.text;
    }
  }
}
