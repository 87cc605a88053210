/** The sessions of one game server: heap objects keyed by peer (internal/game/session.go). */
module Sessions {
  import opened Wrappers
  import opened GameState

  class Session {
    const peer: Peer
    const userID: string
    const characterID: string
    const entityID: string
    var latestInput: Option<Packet>

    constructor (peer: Peer, userID: string, characterID: string, entityID: string)
      ensures this.peer == peer && Value() == SessionVal(userID, characterID, entityID, None)
    {
      this.peer := peer;
      this.userID := userID;
      this.characterID := characterID;
      this.entityID := entityID;
      this.latestInput := None;
    }

    function Value(): SessionVal
      reads this
    {
      SessionVal(userID, characterID, entityID, latestInput)
    }
  }

  ghost function Peers(list: seq<Session>): (peers: seq<Peer>)
    ensures |peers| == |list| && forall i | 0 <= i < |list| :: peers[i] == list[i].peer
  {
    seq(|list|, i requires 0 <= i < |list| => list[i].peer)
  }

  class SessionManager {
    var sessions: map<Peer, Session>
    /** The sessions ever added: what a caller may see change. */
    ghost var Repr: set<Session>

    /** Every session is filed under its own peer, so no session is reached from two peers. */
    ghost predicate Valid()
      reads this
    {
      forall p | p in sessions :: sessions[p].peer == p && sessions[p] in Repr
    }

    ghost function Contents(): (r: map<Peer, SessionVal>)
      requires Valid()
      reads this, Repr
      ensures r.Keys == sessions.Keys
    {
      map p | p in sessions :: sessions[p].Value()
    }

    constructor ()
      ensures Valid() && Repr == {} && Contents() == map[]
    {
      Repr := {};
      sessions := map[];
    }

    method Add(session: Session)
      requires Valid()
      modifies this
      ensures Valid() && Repr == old(Repr) + {session}
      ensures Contents() == old(Contents())[session.peer := session.Value()]
    {
      sessions := sessions[session.peer := session];
      Repr := Repr + {session};
    }

    method Get(peer: Peer) returns (s: Session?)
      ensures s == if peer in sessions then sessions[peer] else null
    {
      s := if peer in sessions then sessions[peer] else null;
    }

    method Remove(peer: Peer) returns (s: Session?)
      requires Valid()
      modifies this`sessions
      ensures s == if peer in old(sessions) then old(sessions)[peer] else null
      ensures Valid()
      ensures Contents() == old(Contents()) - {peer}
    {
      s := if peer in sessions then sessions[peer] else null;
      sessions := sessions - {peer};
    }

    /** The session's slot is overwritten. */
    method Overwrite(session: Session, input: Option<Packet>)
      requires Valid() && session.peer in sessions && sessions[session.peer] == session
      modifies session
      ensures Valid() && Contents() == old(Contents())[session.peer := old(Contents())[session.peer].(latestInput := input)]
    {
      session.latestInput := input;
    }

    /** Every session once, in whatever order the map yields them. */
    method All() returns (list: seq<Session>)
      requires Valid()
      ensures forall i | 0 <= i < |list| :: list[i].peer in sessions && sessions[list[i].peer] == list[i]
      ensures Enumerates(Peers(list), Contents())
    {
      list := [];
      var rest := sessions.Keys;
      while rest != {}
        invariant rest <= sessions.Keys
        invariant forall i | 0 <= i < |list| :: list[i].peer in sessions && sessions[list[i].peer] == list[i] && list[i].peer !in rest
        invariant forall i, j | 0 <= i < j < |list| :: list[i].peer != list[j].peer
        invariant forall p | p in sessions && p !in rest :: sessions[p] in list
      {
        var p :| p in rest;
        rest := rest - {p};
        list := list + [sessions[p]];
      }
      forall p | p in sessions ensures p in Peers(list) {
        var i :| 0 <= i < |list| && list[i] == sessions[p];
        assert Peers(list)[i] == p;
      }
    }

    method Count() returns (n: nat)
      requires Valid()
      ensures n == |Contents()|
    {
      n := |sessions|;
      assert |Contents()| == |Contents().Keys| && |sessions| == |sessions.Keys|;
    }
  }
}
