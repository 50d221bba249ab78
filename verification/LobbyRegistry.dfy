/** The locked registry of lobbies and their rows in the database (internal/lobby/lobby_repository.go). */
module LobbyRegistry {
  import opened Wrappers
  import opened SessionMembers
  import opened Lobbies

  /** What the registry lock protects: the registered lobbies and the ids whose row is marked running. */
  datatype Registry<L> = Registry(lobbies: map<LobbyId, L>, running: set<LobbyId>)

  function Entered<L>(r: Registry<L>, id: LobbyId, l: L): Registry<L> {
    Registry(r.lobbies[id := l], r.running + {id})
  }

  function Dropped<L>(r: Registry<L>, id: LobbyId): Registry<L> {
    Registry(r.lobbies - {id}, r.running - {id})
  }

  /** Persisted state agrees with memory. */
  ghost predicate RowsAgree<L>(r: Registry<L>) {
    r.running == r.lobbies.Keys
  }

  datatype LobbyError = QueryFailed | SaveFailed

  class LobbyRepository {
    var lobbies: map<LobbyId, Lobby>
    var rows: map<LobbyId, bool>      // the persisted IsRunning flags

    ghost function View(): Registry<Lobby>
      reads this
    {
      Registry(lobbies, set id | id in rows && rows[id])
    }

    ghost predicate Valid()
      reads this
    {
      RowsAgree(View()) && forall id :: id in lobbies ==> lobbies[id].id == id
    }

    /** Rows left over from earlier are not marked running. */
    constructor (rows: map<LobbyId, bool>)
      requires forall id :: id in rows ==> !rows[id]
      ensures Valid() && lobbies == map[] && this.rows == rows
    {
      lobbies := map[];
      this.rows := rows;
    }

    /** `queried` and `saved` tell whether the two database calls succeed; a failed save leaves the row as it is. */
    method GetOrCreateLobby(id: LobbyId, queried: bool, saved: bool) returns (r: Result<Lobby, LobbyError>)
      requires Valid() && id in rows
      modifies this
      ensures Valid() && rows.Keys == old(rows.Keys)
      ensures id in old(lobbies) ==> r == Ok(old(lobbies)[id]) && lobbies == old(lobbies) && rows == old(rows)
      ensures id !in old(lobbies) && queried && saved ==>
        r.Ok? && fresh(r.value) && r.value.id == id && r.value.running && !r.value.stopped && r.value.Members() == map[] &&
        View() == Entered(old(View()), id, r.value) &&
        lobbies == old(lobbies)[id := r.value] && rows == old(rows)[id := true]
      ensures id !in old(lobbies) && !(queried && saved) ==>
        r == Err(if queried then SaveFailed else QueryFailed) && lobbies == old(lobbies) && rows == old(rows)
    {
      if id in lobbies {
        return Ok(lobbies[id]);
      }
      if !queried {
        return Err(QueryFailed);
      }
      if !saved {
        return Err(SaveFailed);
      }
      rows := rows[id := true];
      var lobby := new Lobby(id);
      lobbies := lobbies[id := lobby];
      r := Ok(lobby);
    }

    /** Deletes an empty lobby. A failed save has already lowered the flag held in memory. */
    method Delete(id: LobbyId, saved: bool) returns (ok: bool)
      requires Valid() && id in rows
      modifies this, if id in lobbies then {lobbies[id]} else {}
      ensures Valid() && rows.Keys == old(rows.Keys)
      ensures ok <==> id in old(lobbies) && old(lobbies[id].Members()) == map[] && saved
      ensures View() == if ok then Dropped(old(View()), id) else old(View())
      ensures ok ==> lobbies == old(lobbies) - {id} && rows == old(rows)[id := false]
      ensures !ok ==> lobbies == old(lobbies) && rows == old(rows)
      ensures id in old(lobbies) ==>
        var l := old(lobbies)[id];
        && l.Members() == old(l.Members())
        && l.stopped == (ok || old(l.stopped))
        && l.running == (old(l.running) && old(l.Members()) != map[])
    {
      if id in lobbies {
        var lobby := lobbies[id];
        var n := lobby.sessions.Len();
        if n > 0 {
          return false;
        }
        lobby.running := false;
        if !saved {
          return false;
        }
        rows := rows[id := false];
        lobbies := lobbies - {id};
        lobby.Stop();
        return true;
      }
      ok := false;
    }
  }
}
