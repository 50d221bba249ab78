/** A session repository as a value: who is in it, and what its scans over the map must amount to. */
module SessionMembers {
  import opened Wrappers

  datatype SessionType = UserSession | InstanceSession | RemoteInstanceSession

  datatype Member = Member(user: UserId, kind: SessionType)

  ghost predicate HasUser(members: map<SessionId, Member>, user: UserId) {
    exists k :: k in members && members[k].user == user
  }

  ghost predicate UniqueUsers(members: map<SessionId, Member>) {
    forall j, k :: j in members && k in members && members[j].user == members[k].user ==> j == k
  }

  /** The map from user to session that the repository stands for. */
  ghost function ByUser(members: map<SessionId, Member>): map<UserId, SessionId>
    requires UniqueUsers(members)
  {
    map k | k in members :: members[k].user := k
  }

  ghost function UserSessions(members: map<SessionId, Member>): set<SessionId> {
    set k | k in members && members[k].kind == UserSession
  }

  ghost function WithoutUser(members: map<SessionId, Member>, user: UserId): map<SessionId, Member> {
    map k | k in members && members[k].user != user :: members[k]
  }

  /** Admitting a new user refines insertion into the user map exactly when the session id is fresh. */
  lemma AdmitRefinesInsertIff(members: map<SessionId, Member>, id: SessionId, m: Member)
    requires UniqueUsers(members) && !HasUser(members, m.user)
    ensures UniqueUsers(members[id := m])
    ensures ByUser(members[id := m]) == ByUser(members)[m.user := id] <==> id !in members
  {
    if id in members {
      assert members[id].user in ByUser(members)[m.user := id];
      assert members[id].user !in ByUser(members[id := m]);
    } else {
      FreshAdmissionInserts(members, id, m);
    }
  }

  lemma FreshAdmissionInserts(members: map<SessionId, Member>, id: SessionId, m: Member)
    requires UniqueUsers(members) && !HasUser(members, m.user) && id !in members
    ensures UniqueUsers(members[id := m]) && ByUser(members[id := m]) == ByUser(members)[m.user := id]
  {
    var after := members[id := m];
    forall u | u in ByUser(members) ensures u in ByUser(after) && ByUser(after)[u] == ByUser(members)[u] {
      assert after[ByUser(members)[u]].user == u;
    }
    assert after[id].user == m.user;
  }

  /** Removing a user takes out the one session it has, if any. */
  lemma RemovalTakesOne(members: map<SessionId, Member>, user: UserId)
    requires UniqueUsers(members)
    ensures UniqueUsers(WithoutUser(members, user)) && !HasUser(WithoutUser(members, user), user)
    ensures |WithoutUser(members, user)| == |members| - if HasUser(members, user) then 1 else 0
  {
    var after := WithoutUser(members, user);
    if HasUser(members, user) {
      var k :| k in members && members[k].user == user;
      assert after.Keys == members.Keys - {k};
    } else {
      assert after.Keys == members.Keys;
    }
  }

  /** Removal refines deletion from the user map. */
  lemma RemovalRefinesDelete(members: map<SessionId, Member>, user: UserId)
    requires UniqueUsers(members) && UniqueUsers(WithoutUser(members, user))
    ensures ByUser(WithoutUser(members, user)) == ByUser(members) - {user}
  {
    var after := WithoutUser(members, user);
    forall u | u in ByUser(members) && u != user ensures u in ByUser(after) && ByUser(after)[u] == ByUser(members)[u] {
      assert after[ByUser(members)[u]].user == u;
    }
    forall u | u in ByUser(after) ensures u in ByUser(members) && u != user {
      assert members[ByUser(after)[u]].user == u;
    }
  }
}
