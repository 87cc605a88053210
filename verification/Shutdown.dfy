/** What the release loop of a shutdown does to the locks (internal/game/server.go). */
module Shutdown {
  import opened Wrappers
  import opened Redis
  import opened GameState
  import opened Join
  import Keys
  import CharacterLocks

  /** The releases in the order in which the session map yields the sessions; a release that fails is skipped. */
  function ReleaseAll(st: State, sessions: map<Peer, SessionVal>, order: seq<Peer>, owner: string, up: Peer -> bool): State {
    if order == [] then st
    else ReleaseOne(ReleaseAll(st, sessions, order[..|order| - 1], owner, up), sessions, order[|order| - 1], owner, up)
  }

  function ReleaseOne(st: State, sessions: map<Peer, SessionVal>, p: Peer, owner: string, up: Peer -> bool): State {
    if p in sessions then CharacterLocks.ReleaseEffect(st, sessions[p].characterID, owner, up(p)).0 else st
  }

  lemma ReleaseOneMore(st: State, sessions: map<Peer, SessionVal>, order: seq<Peer>, i: nat, owner: string, up: Peer -> bool)
    requires i < |order|
    ensures ReleaseAll(st, sessions, order[..i + 1], owner, up)
         == ReleaseOne(ReleaseAll(st, sessions, order[..i], owner, up), sessions, order[i], owner, up)
  {
    assert order[..i + 1][..i] == order[..i];
  }

  /** k is the lock of that character, and the owner holds it. */
  predicate Owned(st: State, k: Keys.Key, character: string, owner: string) {
    match CharacterLocks.LockIDs(character, owner)
    case Err(_) => false
    case Ok((c, o)) => k == Keys.CharacterLock(c) && Get(st, k) == Some(Text(o))
  }

  lemma ReleaseExactly(st: State, character: string, owner: string, up: bool)
    ensures var st' := CharacterLocks.ReleaseEffect(st, character, owner, up).0;
            && st'.now == st.now
            && forall k :: Seen(st', k) == if up && Owned(st, k, character, owner) then None else Seen(st, k)
  {
  }

  ghost predicate Freed(st: State, k: Keys.Key, sessions: map<Peer, SessionVal>, order: seq<Peer>, owner: string, up: Peer -> bool) {
    exists p :: p in order && p in sessions && up(p) && Owned(st, k, sessions[p].characterID, owner)
  }

  lemma SameOwned(a: State, b: State, k: Keys.Key, character: string, owner: string)
    requires Seen(a, k) == Seen(b, k)
    ensures Owned(a, k, character, owner) == Owned(b, k, character, owner)
  {
  }

  /** The loop frees exactly the locks that this server holds for characters of its sessions whose release
      gets through, whatever the order; every other key stays as it was. */
  lemma {:induction false} ReleasesExactly(st: State, sessions: map<Peer, SessionVal>, order: seq<Peer>, owner: string, up: Peer -> bool)
    ensures var st' := ReleaseAll(st, sessions, order, owner, up);
            && st'.now == st.now
            && forall k :: Seen(st', k) == if Freed(st, k, sessions, order, owner, up) then None else Seen(st, k)
  {
    if order != [] {
      var rest, p := order[..|order| - 1], order[|order| - 1];
      var mid := ReleaseAll(st, sessions, rest, owner, up);
      ReleasesExactly(st, sessions, rest, owner, up);
      assert forall q :: q in order <==> q in rest || q == p;
      if p in sessions {
        ReleaseExactly(mid, sessions[p].characterID, owner, up(p));
      }
      forall k ensures Seen(ReleaseAll(st, sessions, order, owner, up), k)
                    == if Freed(st, k, sessions, order, owner, up) then None else Seen(st, k)
      {
        LastFreed(st, mid, k, sessions, order, owner, up);
      }
    }
  }

  lemma LastFreed(st: State, mid: State, k: Keys.Key, sessions: map<Peer, SessionVal>, order: seq<Peer>, owner: string, up: Peer -> bool)
    requires order != []
    requires Seen(mid, k) == if Freed(st, k, sessions, order[..|order| - 1], owner, up) then None else Seen(st, k)
    ensures var p := order[|order| - 1];
            var here := p in sessions && up(p) && Owned(mid, k, sessions[p].characterID, owner);
            (if here then None else Seen(mid, k)) == if Freed(st, k, sessions, order, owner, up) then None else Seen(st, k)
  {
    var rest, p := order[..|order| - 1], order[|order| - 1];
    assert forall q :: q in order <==> q in rest || q == p;
    if Freed(st, k, sessions, rest, owner, up) {
      var q :| q in rest && q in sessions && up(q) && Owned(st, k, sessions[q].characterID, owner);
      assert q in order;
    } else if p in sessions {
      SameOwned(mid, st, k, sessions[p].characterID, owner);
    }
  }
}
