/** The double index over live matches (source/MatchManager.h, source/MatchManager.cpp). */
module MatchManager {
  import opened Bytes
  import opened MatchRuns
  import opened MatchObjects

  /** Both maps hold the same matches, each under its own short id and its own string id. */
  ghost predicate Paired(matches: map<uint16, Match>, matchIds: map<string, Match>) {
    && (forall s :: s in matches ==>
          var m := matches[s]; m.shortId == s && m.id in matchIds && matchIds[m.id] == m)
    && (forall id :: id in matchIds ==>
          var m := matchIds[id]; m.id == id && m.shortId in matches && matches[m.shortId] == m)
  }

  lemma PairedWithout(matches: map<uint16, Match>, matchIds: map<string, Match>, s: uint16)
    requires Paired(matches, matchIds) && s in matches
    ensures matches[s].id in matchIds && Paired(matches - {s}, matchIds - {matches[s].id})
  {
  }

  lemma {:induction false} PairedSizes(matches: map<uint16, Match>, matchIds: map<string, Match>)
    requires Paired(matches, matchIds)
    ensures |matches| == |matchIds|
    decreases |matches|
  {
    if s :| s in matches {
      PairedWithout(matches, matchIds, s);
      SizeWithout(matches, s);
      SizeWithout(matchIds, matches[s].id);
      PairedSizes(matches - {s}, matchIds - {matches[s].id});
    } else {
      assert matchIds.Keys == {} && |matchIds| == |matchIds.Keys|;
      assert matches.Keys == {} && |matches| == |matches.Keys|;
    }
  }

  /** The maps form a bijection: same size, same matches, each match under one key in each. */
  lemma PairedIsBijection(matches: map<uint16, Match>, matchIds: map<string, Match>)
    requires Paired(matches, matchIds)
    ensures |matches| == |matchIds| && matches.Values == matchIds.Values
    ensures forall s, t :: s in matches && t in matches && matches[s] == matches[t] ==> s == t
    ensures forall a, b :: a in matchIds && b in matchIds && matchIds[a] == matchIds[b] ==> a == b
  {
    PairedSizes(matches, matchIds);
    assert forall s :: s in matches ==> matchIds[matches[s].id] in matchIds.Values;
    assert forall id :: id in matchIds ==> matches[matchIds[id].shortId] in matches.Values;
  }

  ghost function Below(n: nat): set<uint16>
    requires n <= 0x1_0000
  {
    if n == 0 then {} else Below(n - 1) + {n - 1}
  }

  lemma {:induction false} CountBelow(n: nat)
    requires n <= 0x1_0000
    ensures |Below(n)| == n
    ensures forall k: uint16 :: k in Below(n) <==> k < n
  {
    if n > 0 {
      CountBelow(n - 1);
    }
  }

  lemma Complement<T>(all: set<T>, part: set<T>)
    requires part <= all
    ensures |all - part| == |all| - |part|
    ensures all - part == {} <==> part == all
  {
    assert all == part + (all - part);
  }

  /** A short id is free if and only if fewer than 65536 matches are live. */
  lemma FreshShortIdExists(matches: map<uint16, Match>)
    ensures (exists k: uint16 :: k !in matches) <==> |matches| < 0x1_0000
  {
    var all := Below(0x1_0000);
    CountBelow(0x1_0000);
    hide Below;
    assert |matches| == |matches.Keys|;
    Complement(all, matches.Keys);
    if k: uint16 :| k !in matches {
      assert k in all - matches.Keys;
    } else {
      assert matches.Keys == all;
    }
  }

  class Manager {
    var matches: map<uint16, Match>
    var matchIds: map<string, Match>

    ghost predicate Valid()
      reads this
    {
      Paired(matches, matchIds)
    }

    constructor ()
      ensures Valid() && matches == map[] && matchIds == map[]
    {
      matches, matchIds := map[], map[];
    }

    /** Sampling until an unused id turns up: any id outside the map. */
    method GetNewMatchShortId() returns (shortId: uint16)
      requires |matches| < 0x1_0000
      ensures shortId !in matches
    {
      FreshShortIdExists(matches);
      shortId :| shortId !in matches;
    }

    method CreateMatch(id: string)
      requires Valid() && (id in matchIds || |matches| < 0x1_0000)
      modifies this
      ensures Valid()
      ensures id in old(matchIds) ==> matches == old(matches) && matchIds == old(matchIds)
      ensures id !in old(matchIds) ==> id in matchIds && var m := matchIds[id];
                && fresh(m) && m.shortId !in old(matches) && m.Valid() && m.commands == []
                && m.View() == MatchState(JoinedWaiting, map[], [])
      ensures id !in old(matchIds) ==> var m := matchIds[id];
                matches == old(matches)[m.shortId := m] && matchIds == old(matchIds)[id := m]
    {
      if id in matchIds {
        return;
      }
      var shortId := GetNewMatchShortId();
      var match_ := new Match(id, shortId);
      match_.InitThread();
      matches := matches[shortId := match_];
      matchIds := matchIds[id := match_];
    }

    method RemoveMatch(id: string)
      requires Valid()
      modifies this
      ensures Valid()
      ensures id !in old(matchIds) ==> matches == old(matches) && matchIds == old(matchIds)
      ensures id in old(matchIds) ==>
          matchIds == old(matchIds) - {id} && matches == old(matches) - {old(matchIds)[id].shortId}
    {
      if id !in matchIds {
        return;
      }
      var shortId := matchIds[id].shortId;
      matchIds := matchIds - {id};
      matches := matches - {shortId};
    }

    /** Match::EndMatch with its call back into the manager. */
    method EndMatch(ended: Match)
      requires Valid() && ended.Valid()
      modifies this, ended`phase
      ensures Valid() && ended.Valid() && ended.View() == MatchRuns.EndMatch(old(ended.View()))
      ensures matchIds == old(matchIds) - {ended.id}
      ensures matches == if ended.id in old(matchIds) then old(matches) - {old(matchIds)[ended.id].shortId}
                         else old(matches)
    {
      ended.EndMatchState();
      RemoveMatch(ended.id);
    }

    method AddMatchPlayer(player: Player, id: string) returns (joined: bool)
      requires Valid() && forall i :: i in matchIds ==> matchIds[i].Valid()
      modifies matchIds.Values, player
      ensures Valid()
      ensures joined == (id in matchIds && matchIds[id].phase.JoinedWaiting?)
      ensures if joined then player.activeMatch == matchIds[id] else unchanged(player)
      ensures id in matchIds ==> matchIds[id].Valid()
      ensures id in matchIds ==> matchIds[id].View() == Join(old(matchIds[id].View()), old(player.View()))
      ensures forall i :: i in matchIds && i != id ==> unchanged(matchIds[i])
    {
      if id in matchIds {
        joined := matchIds[id].JoinPlayer(player);
      } else {
        joined := false;
      }
    }
  }
}
