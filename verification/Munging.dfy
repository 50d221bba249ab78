/** Carrying track metadata through an offer: munging on the sending side, parsing on the receiving side
    (internal/rtp/sdp.go). An offer is a list of media sections; a track is named by the second half of
    its `a=msid` attribute (section 2 of RFC 8830). */
module Munging {
  import opened Wrappers
  import opened TrackInfo
  import opened TitleCodec
  import opened InfoRepository

  datatype MediaSection = MediaSection(kind: string, title: Option<string>, msid: Option<string>, mid: Option<string>)

  /** `s` consists of `a` and `b`, separated by its only space. */
  ghost predicate TwoParts(s: string, a: string, b: string) {
    s == a + " " + b && ' ' !in a && ' ' !in b
  }

  lemma PartsArePieces(a: string, b: string)
    requires ' ' !in a && ' ' !in b
    ensures SplitAfter(a + " " + b) == [a + " ", b]
  {
    SplitAtSpace(a, b);
    SplitShape(b);
  }

  lemma PiecesAreParts(s: string) returns (a: string)
    requires |SplitAfter(s)| == 2
    ensures TwoParts(s, a, SplitAfter(s)[1])
  {
    var head, tail := SplitAfter(s)[0], SplitAfter(s)[1];
    SplitCutsAtSpaces(s, 0);
    SplitShape(s);
    SplitJoins(s);
    a := head[..|head|-1];
    assert head == a + " ";
    ConcatTwo(head, tail);
    assert SplitAfter(s) == [head, tail];
  }

  lemma ConcatTwo(a: string, b: string)
    ensures Concat([a, b]) == a + b
  {
    assert [a, b][1..] == [b] && [b][1..] == [];
    assert Concat([b]) == b + Concat([]) == b;
  }

  /** Splitting finds the two parts, and only if there are two. */
  lemma TwoPiecesIff(s: string)
    ensures |SplitAfter(s)| == 2 <==> exists a, b :: TwoParts(s, a, b)
    ensures forall a, b :: TwoParts(s, a, b) ==> SplitAfter(s) == [a + " ", b]
  {
    forall a, b | TwoParts(s, a, b) ensures SplitAfter(s) == [a + " ", b] {
      PartsArePieces(a, b);
    }
    if |SplitAfter(s)| == 2 {
      var a := PiecesAreParts(s);
    }
  }

  function TrackIdOf(sec: MediaSection): Option<TrackId> {
    if sec.kind != "video" && sec.kind != "audio" then None
    else if sec.msid.None? then None
    else
      var ids := SplitAfter(sec.msid.value);
      if |ids| == 2 then Some(TrackId(ids[1])) else None
  }

  /** Exactly the audio and video sections whose msid has a single space name a track, by what follows it. */
  lemma TrackIdIff(sec: MediaSection)
    ensures TrackIdOf(sec).Some? <==>
              sec.kind in {"audio", "video"} && sec.msid.Some? && exists a, b :: TwoParts(sec.msid.value, a, b)
    ensures TrackIdOf(sec).Some? ==> forall a, b :: TwoParts(sec.msid.value, a, b) ==> TrackIdOf(sec).value == TrackId(b)
  {
    if sec.msid.Some? {
      TwoPiecesIff(sec.msid.value);
    }
  }

  // Sending side

  /** `c` is a possible result of the lookup made for `sec`; None also for sections that are skipped. */
  ghost predicate Chosen(values: map<InfoId, Info>, sec: MediaSection, c: Option<InfoId>) {
    match TrackIdOf(sec)
    case None => c == None
    case Some(t) => FindsEgress(values, t, c)
  }

  ghost predicate Choices(values: map<InfoId, Info>, offer: seq<MediaSection>, choice: seq<Option<InfoId>>) {
    |choice| == |offer| && forall i :: 0 <= i < |offer| ==> Chosen(values, offer[i], choice[i])
  }

  ghost function MungedSection(values: map<InfoId, Info>, sec: MediaSection, c: Option<InfoId>): MediaSection
    requires c.Some? ==> c.value in values
  {
    if c.Some? then sec.(title := Some(Build(values[c.value]))) else sec
  }

  /** Writing the mid of one section back into the record it names. */
  ghost function RecordMid(values: map<InfoId, Info>, sec: MediaSection, c: Option<InfoId>): map<InfoId, Info> {
    if c.Some? && c.value in values && sec.mid.Some?
    then values[c.value := values[c.value].(egressMid := sec.mid.value)] else values
  }

  ghost predicate SameButMids(before: map<InfoId, Info>, after: map<InfoId, Info>) {
    after.Keys == before.Keys && forall k :: k in before ==> after[k] == before[k].(egressMid := after[k].egressMid)
  }

  /** The records after the mids of the first `n` sections have been written back. */
  ghost function RecordMids(values: map<InfoId, Info>, offer: seq<MediaSection>, choice: seq<Option<InfoId>>, n: nat)
    : (r: map<InfoId, Info>)
    requires n <= |offer| == |choice|
    ensures r.Keys == values.Keys
  {
    if n == 0 then values else RecordMid(RecordMids(values, offer, choice, n - 1), offer[n-1], choice[n-1])
  }

  /** Writing mids back changes nothing but mids. */
  lemma {:induction false} OnlyMidsChange(values: map<InfoId, Info>, offer: seq<MediaSection>, choice: seq<Option<InfoId>>, n: nat)
    requires n <= |offer| == |choice|
    ensures SameButMids(values, RecordMids(values, offer, choice, n))
  {
    if n > 0 {
      OnlyMidsChange(values, offer, choice, n - 1);
    }
  }

  /** `munged` and `values'` are a possible outcome of munging `offer` against `values`. */
  ghost predicate MungedBy(values: map<InfoId, Info>, offer: seq<MediaSection>, choice: seq<Option<InfoId>>,
                           munged: seq<MediaSection>, values': map<InfoId, Info>)
  {
    && Choices(values, offer, choice)
    && |munged| == |offer|
    && (forall i :: 0 <= i < |offer| ==> munged[i] == MungedSection(values, offer[i], choice[i]))
    && values' == RecordMids(values, offer, choice, |offer|)
  }

  /** The body of the munging loop: look the track up, rewrite the title, write the mid back. */
  method MungeSection(sec: MediaSection, repo: TrackSdpInfoRepository) returns (sec': MediaSection, c: Option<InfoId>)
    requires repo.Valid()
    modifies repo.infos.Values
    ensures repo.Valid() && repo.infos == old(repo.infos)
    ensures Chosen(old(repo.Values()), sec, c)
    ensures sec' == MungedSection(old(repo.Values()), sec, c)
    ensures c.None? ==> sec' == sec && repo.Values() == old(repo.Values())
    ensures c.None? && NamesTrack(sec) ==> forall a, b, k :: TwoParts(sec.msid.value, a, b) && k in repo.infos ==>
      repo.infos[k].egressTrackId != TrackId(b)
    ensures c.Some? ==> NamesTrack(sec) && c.value in repo.infos
    ensures c.Some? ==> forall a, b :: TwoParts(sec.msid.value, a, b) ==> old(repo.infos[c.value].egressTrackId) == TrackId(b)
    ensures c.Some? ==> sec' == sec.(title := Some(Build(old(repo.Values())[c.value])))
    ensures c.Some? && sec.mid.Some? ==>
      repo.Values() == old(repo.Values())[c.value := old(repo.Values())[c.value].(egressMid := sec.mid.value)]
    ensures c.Some? && sec.mid.None? ==> repo.Values() == old(repo.Values())
    ensures repo.Values() == RecordMid(old(repo.Values()), sec, c)
  {
    sec', c := sec, None;
    TrackIdIff(sec);
    if sec.kind == "video" || sec.kind == "audio" {
      if sec.msid.Some? {
        var parts := SplitAfter(sec.msid.value);
        if |parts| == 2 {
          c := repo.GetSdpInfoByEgressTrackId(TrackId(parts[1]));
          if c.Some? {
            var record := repo.infos[c.value];
            sec' := sec.(title := Some(Build(RecordValue(record))));
            if sec.mid.Some? {
              record.egressMid := sec.mid.value;
            }
          }
        }
      }
    }
  }

  /** The first `i` sections are munged. */
  ghost predicate MungedUpTo(values: map<InfoId, Info>, offer: seq<MediaSection>, choice: seq<Option<InfoId>>,
                             munged: seq<MediaSection>, values': map<InfoId, Info>, i: nat)
  {
    && i <= |offer| == |choice| && |munged| == i
    && (forall j :: 0 <= j < i ==> Chosen(values, offer[j], choice[j]) && munged[j] == MungedSection(values, offer[j], choice[j]))
    && values' == RecordMids(values, offer, choice, i)
  }

  lemma MungedOneMore(values: map<InfoId, Info>, offer: seq<MediaSection>, choice: seq<Option<InfoId>>,
                      munged: seq<MediaSection>, values': map<InfoId, Info>, i: nat, sec: MediaSection, c: Option<InfoId>)
    requires MungedUpTo(values, offer, choice, munged, values', i) && i < |offer|
    requires Chosen(values', offer[i], c) && sec == MungedSection(values', offer[i], c)
    ensures MungedUpTo(values, offer, choice[i := c], munged + [sec], RecordMid(values', offer[i], c), i + 1)
  {
    OnlyMidsChange(values, offer, choice, i);
    SameLookup(values, values', offer[i], c);
    LaterChoicesDoNotMatter(values, offer, choice, choice[i := c], i);
  }

  method SetEgressTrackInfo(offer: seq<MediaSection>, repo: TrackSdpInfoRepository)
    returns (munged: seq<MediaSection>, ghost choice: seq<Option<InfoId>>)
    requires repo.Valid()
    modifies repo.infos.Values
    ensures repo.Valid() && repo.infos == old(repo.infos)
    ensures MungedBy(old(repo.Values()), offer, choice, munged, repo.Values())
  {
    munged, choice := [], seq(|offer|, _ => None);
    ghost var v0, v := repo.Values(), repo.Values();
    for i := 0 to |offer|
      invariant repo.Valid() && repo.infos == old(repo.infos) && repo.Values() == v
      invariant MungedUpTo(v0, offer, choice, munged, v, i)
    {
      var sec, c := MungeSection(offer[i], repo);
      MungedOneMore(v0, offer, choice, munged, v, i, sec, c);
      munged, choice, v := munged + [sec], choice[i := c], RecordMid(v, offer[i], c);
    }
  }

  /** Write-backs of mids disturb neither the lookups nor the titles of later sections. */
  lemma SameLookup(v0: map<InfoId, Info>, v: map<InfoId, Info>, sec: MediaSection, c: Option<InfoId>)
    requires SameButMids(v0, v) && Chosen(v, sec, c)
    ensures Chosen(v0, sec, c) && MungedSection(v, sec, c) == MungedSection(v0, sec, c)
  {
    if c.Some? {
      assert Build(v[c.value]) == Build(v0[c.value]);
    }
  }

  function RecordValue(record: TrackSdpInfo): (v: Info)
    reads record
    ensures v == record.Value()
  {
    Info(record.id, record.sessionId, record.ingressMid, record.ingressTrackId, record.egressMid,
         record.egressTrackId, record.purpose, record.mute, record.text)
  }

  lemma {:induction false} LaterChoicesDoNotMatter(values: map<InfoId, Info>, offer: seq<MediaSection>,
                                                   choice: seq<Option<InfoId>>, choice': seq<Option<InfoId>>, n: nat)
    requires n <= |offer| == |choice| == |choice'| && forall i :: 0 <= i < n ==> choice[i] == choice'[i]
    ensures RecordMids(values, offer, choice, n) == RecordMids(values, offer, choice', n)
  {
    if n > 0 {
      LaterChoicesDoNotMatter(values, offer, choice, choice', n - 1);
    }
  }

  // Receiving side

  /** The record made for section `sec`, with the fresh id `id`. */
  function ParsedSection(sec: MediaSection, id: InfoId, sessionId: SessionId): Info {
    var title := if sec.title.Some? then sec.title.value else "";
    var info := Parsed(title, NewInfo(id, sessionId));
    var t := TrackIdOf(sec);
    if t.Some? then info.(ingressTrackId := t.value) else info
  }

  ghost function IngressInfo(values: map<InfoId, Info>, sec: MediaSection, sessionId: SessionId, id: InfoId): map<InfoId, Info> {
    if TrackIdOf(sec).Some? then values[id := ParsedSection(sec, id, sessionId)] else values
  }

  /** The repository values after the first `n` sections of an offer have been read into `values`. */
  ghost function IngressInfos(values: map<InfoId, Info>, offer: seq<MediaSection>, sessionId: SessionId, ids: seq<InfoId>, n: nat)
    : map<InfoId, Info>
    requires n <= |offer| == |ids|
  {
    if n == 0 then values
    else IngressInfo(IngressInfos(values, offer, sessionId, ids, n - 1), offer[n-1], sessionId, ids[n-1])
  }

  /** The section names a track. */
  ghost predicate NamesTrack(sec: MediaSection) {
    sec.kind in {"audio", "video"} && sec.msid.Some? && exists a, b :: TwoParts(sec.msid.value, a, b)
  }

  /** What a receiver makes of a section that names a track: the fresh id, its own session, the track id, and purpose,
      mute flag and text of the title, or a guest, not muted, named "Guest" if the title has not two spaces. */
  ghost predicate ReadFrom(v: Info, sec: MediaSection, id: InfoId, sessionId: SessionId) {
    && v.id == id && v.sessionId == sessionId
    && v.ingressMid == "" && v.egressMid == "" && v.egressTrackId == TrackId("")
    && (sec.msid.Some? ==> forall a, b :: TwoParts(sec.msid.value, a, b) ==> v.ingressTrackId == TrackId(b))
    && (sec.title.Some? ==> forall a, b, c :: ThreeFields(sec.title.value, a, b, c) ==>
          v.purpose == (if TrimSpace(a) == "2" then 2 else 1) && v.mute == (TrimSpace(b) == "1") && v.text == c)
    && ((sec.title.Some? ==> forall a, b, c :: !ThreeFields(sec.title.value, a, b, c)) ==>
          v.purpose == 1 && !v.mute && v.text == "Guest")
  }

  lemma ParsedIsRead(sec: MediaSection, id: InfoId, sessionId: SessionId)
    ensures TrackIdOf(sec).Some? <==> NamesTrack(sec)
    ensures NamesTrack(sec) ==> ReadFrom(ParsedSection(sec, id, sessionId), sec, id, sessionId)
  {
    TrackIdIff(sec);
    if sec.title.Some? {
      ThreePiecesIff(sec.title.value);
    }
  }

  /** One media section made into a record; `keep` tells whether it names a track. */
  method ParseSection(sec: MediaSection, sessionId: SessionId, id: InfoId) returns (record: TrackSdpInfo, keep: bool)
    ensures fresh(record) && keep == TrackIdOf(sec).Some?
    ensures keep ==> record.Value() == ParsedSection(sec, id, sessionId)
    ensures keep <==> NamesTrack(sec)
    ensures keep ==> ReadFrom(record.Value(), sec, id, sessionId)
  {
    ParsedIsRead(sec, id, sessionId);
    keep := false;
    record := new TrackSdpInfo(id, sessionId);
    if sec.kind != "video" && sec.kind != "audio" {
      return;
    }
    var title := "";
    if sec.title.Some? {
      title := sec.title.value;
    }
    ParseSdpInformation(title, record);
    ghost var parsed := record.Value();
    if sec.msid.Some? {
      var parts := SplitAfter(sec.msid.value);
      if |parts| == 2 {
        keep := true;
        record.ingressTrackId := TrackId(parts[1]);
        assert record.Value() == parsed.(ingressTrackId := TrackId(parts[1]));
      }
    }
  }

  /** `ids` are the fresh UUIDs drawn for the sections. */
  method GetIngressTrackSdpInfo(offer: seq<MediaSection>, sessionId: SessionId, repo: TrackSdpInfoRepository, ids: seq<InfoId>)
    requires repo.Valid() && |ids| == |offer|
    modifies repo
    ensures repo.Valid()
    ensures repo.Values() == IngressInfos(old(repo.Values()), offer, sessionId, ids, |offer|)
    ensures fresh(repo.infos.Values - old(repo.infos.Values))
    ensures FreshIds(old(repo.Values()), ids) ==> AllRead(old(repo.Values()), repo.Values(), offer, sessionId, ids)
  {
    ghost var before := repo.Values();
    for i := 0 to |offer|
      invariant repo.Valid() && repo.Values() == IngressInfos(old(repo.Values()), offer, sessionId, ids, i)
      invariant fresh(repo.infos.Values - old(repo.infos.Values))
    {
      var record, keep := ParseSection(offer[i], sessionId, ids[i]);
      if keep {
        repo.Set(ids[i], record);
      }
    }
    if FreshIds(before, ids) {
      OfferIsRead(before, offer, sessionId, ids);
    }
  }

  ghost predicate FreshIds(values: map<InfoId, Info>, ids: seq<InfoId>) {
    && (forall i, j :: 0 <= i < j < |ids| ==> ids[i] != ids[j])
    && (forall i :: 0 <= i < |ids| ==> ids[i] !in values)
  }

  /** `after` holds the old records untouched, and one record per section that names a track, stored under its own id. */
  ghost predicate AllRead(before: map<InfoId, Info>, after: map<InfoId, Info>, offer: seq<MediaSection>, sessionId: SessionId,
                          ids: seq<InfoId>)
    requires |ids| == |offer|
  {
    && (forall k :: k in before ==> k in after && after[k] == before[k])
    && (forall i :: 0 <= i < |offer| && NamesTrack(offer[i]) ==>
          ids[i] in after && ReadFrom(after[ids[i]], offer[i], ids[i], sessionId))
    && (forall k :: k in after && k !in before ==> exists i :: 0 <= i < |offer| && ids[i] == k && NamesTrack(offer[i]))
  }

  lemma OfferIsRead(values: map<InfoId, Info>, offer: seq<MediaSection>, sessionId: SessionId, ids: seq<InfoId>)
    requires |ids| == |offer| && FreshIds(values, ids)
    ensures AllRead(values, IngressInfos(values, offer, sessionId, ids, |offer|), offer, sessionId, ids)
  {
    var after := IngressInfos(values, offer, sessionId, ids, |offer|);
    forall k | k in values ensures k in after && after[k] == values[k] {
      IngressShape(values, offer, sessionId, ids, |offer|, k);
    }
    forall i | 0 <= i < |offer| && NamesTrack(offer[i])
      ensures ids[i] in after && ReadFrom(after[ids[i]], offer[i], ids[i], sessionId)
    {
      IngressShape(values, offer, sessionId, ids, |offer|, ids[i]);
      ParsedIsRead(offer[i], ids[i], sessionId);
    }
    forall k | k in after && k !in values ensures exists i :: 0 <= i < |offer| && ids[i] == k && NamesTrack(offer[i]) {
      IngressShape(values, offer, sessionId, ids, |offer|, k);
      var i :| 0 <= i < |offer| && ids[i] == k && TrackIdOf(offer[i]).Some?;
      ParsedIsRead(offer[i], k, sessionId);
    }
  }

  // Properties of munging

  /** Munging changes titles only, and only of sections whose track the repository knows. */
  lemma MungingChangesOnlyMatchedTitles(values: map<InfoId, Info>, offer: seq<MediaSection>, choice: seq<Option<InfoId>>,
                                        munged: seq<MediaSection>, values': map<InfoId, Info>, i: nat)
    requires MungedBy(values, offer, choice, munged, values') && i < |offer|
    ensures munged[i] == offer[i].(title := munged[i].title) && TrackIdOf(munged[i]) == TrackIdOf(offer[i])
    ensures munged[i].title != offer[i].title ==>
              TrackIdOf(offer[i]).Some? && exists k :: k in values && values[k].egressTrackId == TrackIdOf(offer[i]).value
  {
    assert munged[i] == MungedSection(values, offer[i], choice[i]) && Chosen(values, offer[i], choice[i]);
  }

  /** A matched section with a mid is recorded, unless a later section with a mid names the same track. */
  lemma {:induction false} MidIsRecorded(values: map<InfoId, Info>, offer: seq<MediaSection>, choice: seq<Option<InfoId>>, n: nat, i: nat)
    requires i < n <= |offer| == |choice|
    requires choice[i].Some? && choice[i].value in values && offer[i].mid.Some?
    requires forall j :: i < j < n && choice[j] == choice[i] ==> offer[j].mid.None?
    ensures RecordMids(values, offer, choice, n)[choice[i].value].egressMid == offer[i].mid.value
  {
    if i < n - 1 {
      MidIsRecorded(values, offer, choice, n - 1, i);
    }
  }

  /** Munging a munged offer again, against the updated records, changes nothing more. */
  lemma MungingIsIdempotent(values: map<InfoId, Info>, offer: seq<MediaSection>, choice: seq<Option<InfoId>>,
                            munged: seq<MediaSection>, values': map<InfoId, Info>,
                            choice2: seq<Option<InfoId>>, munged2: seq<MediaSection>, values2: map<InfoId, Info>)
    requires UniqueEgressIds(values)
    requires MungedBy(values, offer, choice, munged, values')
    requires MungedBy(values', munged, choice2, munged2, values2)
    ensures munged2 == munged && values2 == values'
  {
    OnlyMidsChange(values, offer, choice, |offer|);
    forall i | 0 <= i < |offer| ensures choice2[i] == choice[i] && munged2[i] == munged[i] && munged[i].mid == offer[i].mid {
      MungingChangesOnlyMatchedTitles(values, offer, choice, munged, values', i);
      assert Chosen(values', munged[i], choice2[i]) && Chosen(values, offer[i], choice[i]);
      if choice2[i].Some? && choice[i].Some? {
        assert values[choice2[i].value].egressTrackId == values[choice[i].value].egressTrackId;
      }
      if choice[i].Some? {
        assert Build(values'[choice[i].value]) == Build(values[choice[i].value]);
      }
    }
    assert choice2 == choice;
    SecondPassKeepsMids(values, offer, munged, choice, |offer|);
  }

  lemma {:induction false} SecondPassKeepsMids(values: map<InfoId, Info>, offer: seq<MediaSection>, munged: seq<MediaSection>,
                                               choice: seq<Option<InfoId>>, n: nat)
    requires n <= |offer| == |munged| == |choice|
    requires forall i :: 0 <= i < |offer| ==> munged[i].mid == offer[i].mid
    ensures var once := RecordMids(values, offer, choice, n);
            RecordMids(once, munged, choice, n) == once
  {
    var once := RecordMids(values, offer, choice, n);
    OnlyMidsChange(once, munged, choice, n);
    forall k | k in once ensures RecordMids(once, munged, choice, n)[k] == once[k] {
      MidOf(values, offer, choice, n, k);
      MidOf(once, munged, choice, n, k);
      LastMidTwice(offer, munged, choice, n, k, values[k].egressMid);
    }
  }

  /** The mid of the last of the first `n` sections that names record `k` and carries a mid, else `mid`. */
  ghost function LastMid(offer: seq<MediaSection>, choice: seq<Option<InfoId>>, n: nat, k: InfoId, mid: string): string
    requires n <= |offer| == |choice|
  {
    if n == 0 then mid
    else if choice[n-1] == Some(k) && offer[n-1].mid.Some? then offer[n-1].mid.value
    else LastMid(offer, choice, n - 1, k, mid)
  }

  lemma {:induction false} MidOf(values: map<InfoId, Info>, offer: seq<MediaSection>, choice: seq<Option<InfoId>>, n: nat, k: InfoId)
    requires n <= |offer| == |choice| && k in values
    ensures RecordMids(values, offer, choice, n)[k].egressMid == LastMid(offer, choice, n, k, values[k].egressMid)
  {
    if n > 0 {
      MidOf(values, offer, choice, n - 1, k);
      RecordMidOf(RecordMids(values, offer, choice, n - 1), offer[n-1], choice[n-1], k);
    }
  }

  lemma RecordMidOf(values: map<InfoId, Info>, sec: MediaSection, c: Option<InfoId>, k: InfoId)
    requires k in values
    ensures k in RecordMid(values, sec, c)
    ensures RecordMid(values, sec, c)[k].egressMid ==
            if c == Some(k) && sec.mid.Some? then sec.mid.value else values[k].egressMid
  {
  }

  lemma {:induction false} LastMidTwice(offer: seq<MediaSection>, munged: seq<MediaSection>, choice: seq<Option<InfoId>>,
                                        n: nat, k: InfoId, mid: string)
    requires n <= |offer| == |munged| == |choice|
    requires forall i :: 0 <= i < |offer| ==> munged[i].mid == offer[i].mid
    ensures LastMid(munged, choice, n, k, LastMid(offer, choice, n, k, mid)) == LastMid(offer, choice, n, k, mid)
  {
    if n > 0 {
      LastMidTwice(offer, munged, choice, n - 1, k, mid);
    }
  }

  // End to end

  /** Exactly one new record per named section, and the old records untouched. */
  lemma {:induction false} IngressShape(values: map<InfoId, Info>, offer: seq<MediaSection>, sessionId: SessionId, ids: seq<InfoId>, n: nat, k: InfoId)
    requires n <= |offer| == |ids| && FreshIds(values, ids)
    ensures var r := IngressInfos(values, offer, sessionId, ids, n);
      && (k in values ==> k in r && r[k] == values[k])
      && (k in r && k !in values ==> exists i :: 0 <= i < n && ids[i] == k && TrackIdOf(offer[i]).Some?)
      && (forall i :: 0 <= i < n && ids[i] == k && TrackIdOf(offer[i]).Some? ==>
                        k in r && r[k] == ParsedSection(offer[i], k, sessionId))
  {
    if n > 0 {
      IngressShape(values, offer, sessionId, ids, n - 1, k);
    }
  }

  /** Metadata survives the wire: a matched section is received with the sender's purpose, mute flag and
      text exactly when the sender's record is clean. */
  lemma MetadataSurvives(sent: map<InfoId, Info>, offer: seq<MediaSection>, choice: seq<Option<InfoId>>,
                         munged: seq<MediaSection>, sent': map<InfoId, Info>,
                         known: map<InfoId, Info>, sessionId: SessionId, ids: seq<InfoId>, i: nat)
    requires MungedBy(sent, offer, choice, munged, sent')
    requires |ids| == |offer| && FreshIds(known, ids) && i < |offer| && choice[i].Some?
    ensures var received := IngressInfos(known, munged, sessionId, ids, |munged|);
      && ids[i] in received
      && received[ids[i]].ingressTrackId == sent[choice[i].value].egressTrackId
      && received[ids[i]].sessionId == sessionId
      && (SameMeta(received[ids[i]], sent[choice[i].value]) <==> Clean(sent[choice[i].value]))
  {
    IngressShape(known, munged, sessionId, ids, |munged|, ids[i]);
    MungingChangesOnlyMatchedTitles(sent, offer, choice, munged, sent', i);
    assert Chosen(sent, offer[i], choice[i]) && munged[i] == MungedSection(sent, offer[i], choice[i]);
    var v := sent[choice[i].value];
    RoundTripIffClean(v, ids[i], sessionId);
    var p := Parsed(Build(v), NewInfo(ids[i], sessionId));
    ParseOfBuild(v, NewInfo(ids[i], sessionId));
    assert ParsedSection(munged[i], ids[i], sessionId) == p.(ingressTrackId := v.egressTrackId);
  }

  ghost predicate DistinctTracks(offer: seq<MediaSection>) {
    forall i, j :: 0 <= i < j < |offer| && TrackIdOf(offer[i]).Some? ==> TrackIdOf(offer[i]) != TrackIdOf(offer[j])
  }

  /** The receiver finds a track by its id in arbitrary map order. With clean records and distinct track ids,
      every possible lookup result carries the sender's metadata exactly when no older record for the same
      track (left by an earlier offer) disagrees. */
  lemma LookupCarriesMetadataIff(sent: map<InfoId, Info>, offer: seq<MediaSection>, choice: seq<Option<InfoId>>,
                                 munged: seq<MediaSection>, sent': map<InfoId, Info>,
                                 known: map<InfoId, Info>, sessionId: SessionId, ids: seq<InfoId>, i: nat)
    requires MungedBy(sent, offer, choice, munged, sent') && DistinctTracks(offer)
    requires |ids| == |offer| && FreshIds(known, ids) && i < |offer| && choice[i].Some?
    requires Clean(sent[choice[i].value])
    ensures var received := IngressInfos(known, munged, sessionId, ids, |munged|);
      var v := sent[choice[i].value];
      (forall k :: k in received && received[k].ingressTrackId == v.egressTrackId ==> SameMeta(received[k], v))
      <==> (forall k :: k in known && known[k].ingressTrackId == v.egressTrackId ==> SameMeta(known[k], v))
  {
    var received := IngressInfos(known, munged, sessionId, ids, |munged|);
    MetadataSurvives(sent, offer, choice, munged, sent', known, sessionId, ids, i);
    forall k | k in received && k !in known && received[k].ingressTrackId == sent[choice[i].value].egressTrackId
      ensures k == ids[i]
    {
      OnlyRecordOfTrack(sent, offer, choice, munged, sent', known, sessionId, ids, i, k);
    }
    forall k | k in known ensures k in received && received[k] == known[k] {
      IngressShape(known, munged, sessionId, ids, |munged|, k);
    }
  }

  lemma OnlyRecordOfTrack(sent: map<InfoId, Info>, offer: seq<MediaSection>, choice: seq<Option<InfoId>>,
                          munged: seq<MediaSection>, sent': map<InfoId, Info>,
                          known: map<InfoId, Info>, sessionId: SessionId, ids: seq<InfoId>, i: nat, k: InfoId)
    requires MungedBy(sent, offer, choice, munged, sent') && DistinctTracks(offer)
    requires |ids| == |offer| && FreshIds(known, ids) && i < |offer| && choice[i].Some?
    requires var received := IngressInfos(known, munged, sessionId, ids, |munged|);
      k in received && k !in known && received[k].ingressTrackId == sent[choice[i].value].egressTrackId
    ensures k == ids[i]
  {
    var received := IngressInfos(known, munged, sessionId, ids, |munged|);
    assert Chosen(sent, offer[i], choice[i]);
    IngressShape(known, munged, sessionId, ids, |munged|, k);
    var j :| 0 <= j < |munged| && ids[j] == k && TrackIdOf(munged[j]).Some?;
    MungingChangesOnlyMatchedTitles(sent, offer, choice, munged, sent', j);
    assert received[k].ingressTrackId == TrackIdOf(munged[j]).value;
  }
}
